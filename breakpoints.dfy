/** Breakpoint classification of a viewport width (ResponsiveData's getters). */
module Breakpoints {
  import opened Optional

  const DefaultTablet: int := 768
  const DefaultDesktop: int := 1280

  /** The optional `breakpoints` configuration object; each field may be missing. */
  datatype BreakpointConfig = BreakpointConfig(tablet: Option<int>, desktop: Option<int>)

  /** The resolved pair of thresholds. */
  datatype Thresholds = Thresholds(tablet: int, desktop: int)

  /** `const { tablet = 768, desktop = 1280 } = breakpoints || {}`:
      each missing field falls back to its own default. */
  function Resolve(config: Option<BreakpointConfig>): (t: Thresholds)
    ensures config.None? ==> t == Thresholds(DefaultTablet, DefaultDesktop)
    ensures config.Some? && config.value.tablet.Some? ==> t.tablet == config.value.tablet.value
    ensures config.Some? && config.value.tablet.None? ==> t.tablet == DefaultTablet
    ensures config.Some? && config.value.desktop.Some? ==> t.desktop == config.value.desktop.value
    ensures config.Some? && config.value.desktop.None? ==> t.desktop == DefaultDesktop
  {
    match config
    case None => Thresholds(DefaultTablet, DefaultDesktop)
    case Some(c) =>
      Thresholds(c.tablet.GetOr(DefaultTablet), c.desktop.GetOr(DefaultDesktop))
  }

  /** lib/main.ts hard-codes the thresholds and ignores any configuration. */
  const LegacyThresholds: Thresholds := Thresholds(768, 1280)

  predicate IsMobile(width: int, t: Thresholds) { width < t.tablet }
  predicate IsTablet(width: int, t: Thresholds) { width >= t.tablet && width < t.desktop }
  predicate IsDesktop(width: int, t: Thresholds) { width >= t.desktop }

  /** The three flags packed together, as a reader of the reactive object sees them. */
  datatype Flags = Flags(isMobile: bool, isTablet: bool, isDesktop: bool)

  function FlagsAt(width: int, t: Thresholds): (f: Flags)
    ensures f.isMobile <==> width < t.tablet
    ensures f.isTablet <==> t.tablet <= width < t.desktop
    ensures f.isDesktop <==> t.desktop <= width
  {
    Flags(IsMobile(width, t), IsTablet(width, t), IsDesktop(width, t))
  }

  function CountTrue(f: Flags): nat
  {
    (if f.isMobile then 1 else 0) + (if f.isTablet then 1 else 0) + (if f.isDesktop then 1 else 0)
  }

  /** With ordered thresholds, exactly one flag holds for every width. */
  lemma ExactlyOneFlag(width: int, t: Thresholds)
    requires t.tablet <= t.desktop
    ensures CountTrue(FlagsAt(width, t)) == 1
  {
  }

  /** The boundaries: a width equal to `tablet` is a tablet (a desktop when the two
      thresholds coincide), a width equal to `desktop` is a desktop. */
  lemma Boundaries(t: Thresholds)
    requires t.tablet <= t.desktop
    ensures t.tablet < t.desktop ==> FlagsAt(t.tablet, t) == Flags(false, true, false)
    ensures t.tablet == t.desktop ==> FlagsAt(t.tablet, t) == Flags(false, false, true)
    ensures FlagsAt(t.desktop, t) == Flags(false, false, true)
  {
  }

  /** With inverted thresholds the flags are no longer exclusive: every width in
      [desktop, tablet) is reported as both mobile and desktop. */
  lemma InvertedThresholdsOverlap(t: Thresholds)
    requires t.desktop < t.tablet
    ensures FlagsAt(t.desktop, t) == Flags(true, false, true)
  {
  }

  /** Supplying only one threshold keeps the other's default. */
  lemma PartialOverride(tablet: int, desktop: int)
    ensures Resolve(Some(BreakpointConfig(Some(tablet), None))) == Thresholds(tablet, DefaultDesktop)
    ensures Resolve(Some(BreakpointConfig(None, Some(desktop)))) == Thresholds(DefaultTablet, desktop)
    ensures Resolve(Some(BreakpointConfig(None, None))) == Resolve(None)
  {
  }

  /** The legacy build's fixed thresholds are exactly the modular defaults, so with no
      configuration both builds classify every width identically. */
  lemma LegacyAgreesWithDefaults(width: int)
    ensures FlagsAt(width, LegacyThresholds) == FlagsAt(width, Resolve(None))
    ensures CountTrue(FlagsAt(width, LegacyThresholds)) == 1
    ensures FlagsAt(width, LegacyThresholds).isMobile <==> width < 768
    ensures FlagsAt(width, LegacyThresholds).isTablet <==> 768 <= width < 1280
    ensures FlagsAt(width, LegacyThresholds).isDesktop <==> 1280 <= width
  {
  }
}
