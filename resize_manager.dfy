/** The page-wide resize broadcaster `ResizeManager` (lib/resize-manager.ts, and its
    line-for-line copy lib/resizeManger.ts that lib/main.ts imports). It keeps a
    JavaScript `Set` of consumers, modelled as a duplicate-free sequence in insertion
    order, and attaches one `resize` listener to the window while that set is
    non-empty. Window dimensions are passed in, read once per event; the number of
    `resize` listeners attached to the window is recorded as a counter. */
module ResizeManagement {
  import opened Sequences

  /** What a consumer does with a push: its `updateResponsiveData` returned, it
      threw, or the consumer has no such function (a warning is logged). */
  datatype Reaction = Updated | Threw | NoUpdateMethod

  /** One push of `(width, height)` to `target`, and how the target reacted. */
  datatype Delivery<C> = Delivery(target: C, width: int, height: int, reaction: Reaction)

  /** `Set.prototype.delete`: the sequence without `x`, the others in their order. */
  function Without<C(==)>(s: seq<C>, x: C): (r: seq<C>)
    ensures x !in r
    ensures forall i :: 0 <= i < |r| ==> r[i] in s
    ensures forall i :: 0 <= i < |s| && s[i] != x ==> s[i] in r
    ensures Distinct(s) ==> Distinct(r)
    ensures Distinct(s) ==> |r| == if x in s then |s| - 1 else |s|
    ensures KeepsOrder(r, s)
  {
    if s == [] then []
    else
      var t := Without(s[1..], x);
      KeepsOrderCons(t, s);
      if s[0] == x then t else [s[0]] + t
  }

  /** `updateInstance`: call the consumer's update when it has one, otherwise
      skip it. Nothing is written to a consumer that has no update function. */
  function UpdateInstance<C>(instance: C, width: int, height: int, reaction: C -> Reaction): (d: Delivery<C>)
    ensures d.target == instance && d.width == width && d.height == height
    ensures d.reaction == reaction(instance)
  {
    Delivery(instance, width, height, reaction(instance))
  }

  /** Number of deliveries that actually invoked an update function. */
  function Calls<C>(log: seq<Delivery<C>>): nat
  {
    if log == [] then 0
    else (if log[0].reaction == NoUpdateMethod then 0 else 1) + Calls(log[1..])
  }

  class ResizeManager<C(==)> {
    var instances: seq<C>
    var isListening: bool
    /** Host side: `resize` listeners this manager has attached and not removed. */
    var resizeListeners: nat

    /** A listener is attached exactly while some consumer is registered, and never twice. */
    ghost predicate Valid()
      reads this
    {
      && Distinct(instances)
      && (isListening <==> |instances| > 0)
      && resizeListeners == (if isListening then 1 else 0)
    }

    constructor()
      ensures Valid() && instances == [] && !isListening
    {
      instances := [];
      isListening := false;
      resizeListeners := 0;
    }

    /** Registers `instance` (a no-op on the set when already present), attaches the
        listener if needed, then pushes the current dimensions to that one instance.
        This push is not guarded: a `Threw` reaction propagates to the caller, with
        the instance already registered. */
    method AddInstance(instance: C, width: int, height: int, reaction: C -> Reaction) returns (d: Delivery<C>)
      requires Valid()
      modifies this
      ensures Valid()
      ensures instances == if instance in old(instances) then old(instances) else old(instances) + [instance]
      ensures instance in instances && isListening
      ensures d == Delivery(instance, width, height, reaction(instance))
    {
      if instance !in instances {
        instances := instances + [instance];
      }
      if !isListening {
        StartListening();
      }
      d := UpdateInstance(instance, width, height, reaction);
    }

    /** Unregisters `instance`; the listener is detached exactly when the set
        becomes empty, otherwise listening is left as it was. */
    method RemoveInstance(instance: C)
      requires Valid()
      modifies this
      ensures Valid()
      ensures instances == Without(old(instances), instance)
      ensures !isListening <==> instances == []
      ensures instances != [] ==> isListening == old(isListening) && resizeListeners == old(resizeListeners)
    {
      instances := Without(instances, instance);
      if |instances| == 0 && isListening {
        StopListening();
      }
    }

    /** Attaches the listener unless already listening. */
    method StartListening()
      requires resizeListeners == (if isListening then 1 else 0)
      modifies this
      ensures isListening && resizeListeners == 1
      ensures instances == old(instances)
    {
      if isListening {
        return;
      }
      isListening := true;
      resizeListeners := resizeListeners + 1;
    }

    /** Detaches the listener unless not listening. */
    method StopListening()
      requires resizeListeners == (if isListening then 1 else 0)
      modifies this
      ensures !isListening && resizeListeners == 0
      ensures instances == old(instances)
    {
      if !isListening {
        return;
      }
      isListening := false;
      resizeListeners := resizeListeners - 1;
    }

    /** One resize event: the dimensions are read once and every registered
        consumer, in registration order, gets the same pair. A consumer that throws
        is caught and delivery continues; no consumer is unregistered. */
    method HandleResize(width: int, height: int, reaction: C -> Reaction) returns (log: seq<Delivery<C>>)
      ensures |log| == |instances|
      ensures forall i :: 0 <= i < |log| ==> log[i].target == instances[i]
      ensures forall i :: 0 <= i < |log| ==> log[i].width == width && log[i].height == height
      ensures forall i :: 0 <= i < |log| ==> log[i].reaction == reaction(instances[i])
    {
      log := [];
      var i := 0;
      while i < |instances|
        invariant 0 <= i <= |instances|
        invariant |log| == i
        invariant forall j :: 0 <= j < i ==> log[j] == Delivery(instances[j], width, height, reaction(instances[j]))
      {
        var d := UpdateInstance(instances[i], width, height, reaction);
        log := log + [d];
        i := i + 1;
      }
    }
  }

  /** Every consumer of an event whose update function exists is called once:
      N such consumers give N calls. */
  lemma {:induction false} CallsCountsUpdaters<C>(log: seq<Delivery<C>>, n: nat)
    requires forall i :: 0 <= i < |log| ==> log[i].reaction != NoUpdateMethod
    requires |log| == n
    ensures Calls(log) == n
  {
    if log != [] {
      CallsCountsUpdaters(log[1..], n - 1);
    }
  }

  /** The static `ResizeManager.instance` slot. */
  class ResizeManagerSlot<C(==)> {
    var instance: ResizeManager?<C>

    constructor()
      ensures instance == null
    {
      instance := null;
    }

    /** `getInstance`: creates the manager on first use only; every later call
        returns that same object. */
    method GetInstance() returns (rm: ResizeManager<C>)
      requires instance != null ==> instance.Valid()
      modifies this
      ensures rm == instance && rm.Valid()
      ensures old(instance) != null ==> rm == old(instance)
      ensures old(instance) == null ==> fresh(rm) && rm.instances == [] && !rm.isListening
    {
      if instance == null {
        instance := new ResizeManager();
      }
      rm := instance;
    }
  }
}
