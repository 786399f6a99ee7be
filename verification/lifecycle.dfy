/** A value model of what the lifecycle hooks of libs/single-spa-angular/elements
    do to the options record they are bound to: the module reference, which goes
    from null to set once, and the table from instance name to mounted element.
    Each hook is a step function from a record to a new record and an outcome;
    a failed hook may still have changed the record (mount inserts before it
    forwards props). What the hooks do to the DOM and to the props service is
    stated on the methods of Elements.BootstrappedOptions, which are proved
    against these functions. */
module Lifecycle {
  import opened Wrappers
  import opened Dom
  import opened PropsProviders

  /** The errors a hook rejects with. */
  datatype Error =
    | InvalidModule      // "the options.ngModuleRef is not a valid Angular module"
    | InvalidElement     // "the element is not a valid Angular element or does not have a parent"
    | TypeError          // a call or member access on null
    | BootstrapRejected  // the promise returned by bootstrapFunction rejected

  /** What the module reference offers the adapter: whether `destroy` is a
      function, and what `injector.get(SingleSpaElementPropsService, null)`
      answers. A non-null value without a `destroy` function (`undefined`
      among them) behaves exactly like a reference with `hasDestroy` false. */
  datatype ModuleRef = ModuleRef(hasDestroy: bool, propsService: SingleSpaElementPropsService?)

  /** How the promise returned by the user's bootstrap function settles:
      resolved with a module reference or with null, or rejected. */
  datatype Resolution = Resolved(ref: Option<ModuleRef>) | Failed

  type BootstrapFunction = Props -> Resolution

  /** The mutable part of the options record. */
  datatype Record = Record(ngModuleRef: Option<ModuleRef>, elements: map<string, Element>)

  /** The record of a fresh registration: no module, no mounted element. */
  const Initial: Record := Record(None, map[])

  /** The record after a hook, and how the hook's promise settles. */
  datatype Step = Step(record: Record, outcome: Outcome<Error>)

  /** The guard of setPropsService: the reference is set and has `destroy`. */
  predicate IsValidModule(ref: Option<ModuleRef>) {
    ref.Some? && ref.value.hasDestroy
  }

  /** How setPropsService ends: it throws unless the module is valid. */
  function ForwardProps(ref: Option<ModuleRef>): Outcome<Error> {
    if IsValidModule(ref) then Pass else Fail(InvalidModule)
  }

  /** The props service setPropsService writes to; null when it writes nothing. */
  function PropsTarget(ref: Option<ModuleRef>): SingleSpaElementPropsService? {
    if IsValidModule(ref) then ref.value.propsService else null
  }

  /** Whether bootstrap calls the user's bootstrap function. */
  predicate Invokes(r: Record, bootstrapFunction: Option<BootstrapFunction>) {
    r.ngModuleRef.None? && bootstrapFunction.Some?
  }

  /** bootstrap(props): a one-shot initialisation guarded by the null check on
      the module reference. */
  function BootstrapStep(r: Record, bootstrapFunction: Option<BootstrapFunction>, props: Props): (s: Step)
    ensures s.record.elements == r.elements
    ensures r.ngModuleRef.Some? ==> s == Step(r, Pass)
    ensures s.outcome.Pass? <==>
      r.ngModuleRef.Some? || (Invokes(r, bootstrapFunction) && bootstrapFunction.value(props).Resolved?)
    ensures s.record.ngModuleRef != r.ngModuleRef ==>
      Invokes(r, bootstrapFunction) && bootstrapFunction.value(props) == Resolved(s.record.ngModuleRef)
    ensures Invokes(r, bootstrapFunction) && bootstrapFunction.value(props).Resolved? ==>
      s.record.ngModuleRef == bootstrapFunction.value(props).ref
    ensures r.ngModuleRef.None? && bootstrapFunction.None? ==> s.outcome == Fail(TypeError)
    ensures Invokes(r, bootstrapFunction) && bootstrapFunction.value(props).Failed? ==>
      s.outcome == Fail(BootstrapRejected)
  {
    if r.ngModuleRef.Some? then Step(r, Pass)
    else if bootstrapFunction.None? then Step(r, Fail(TypeError))
    else match bootstrapFunction.value(props)
      case Resolved(ref) => Step(r.(ngModuleRef := ref), Pass)
      case Failed => Step(r, Fail(BootstrapRejected))
  }

  /** mount(props), given the container's first element child (null when it
      has none) and whether that child has a parent. */
  function MountStep(r: Record, props: Props, child: Element?, childHasParent: bool): (s: Step)
    ensures s.record.ngModuleRef == r.ngModuleRef
    ensures s.outcome == Fail(InvalidElement) <==> child == null || !childHasParent
    ensures s.outcome == Fail(InvalidElement) ==> s.record == r
    ensures s.outcome != Fail(InvalidElement) ==>
      props.name in s.record.elements && s.record.elements[props.name] == child
    ensures forall n :: n != props.name ==>
      (n in s.record.elements <==> n in r.elements) &&
      (n in r.elements ==> s.record.elements[n] == r.elements[n])
    ensures s.outcome.Pass? <==> child != null && childHasParent && IsValidModule(r.ngModuleRef)
    ensures child != null && childHasParent && !IsValidModule(r.ngModuleRef) ==>
      s.outcome == Fail(InvalidModule)
  {
    if child == null || !childHasParent then Step(r, Fail(InvalidElement))
    else Step(r.(elements := r.elements[props.name := child]), ForwardProps(r.ngModuleRef))
  }

  /** unmount(props), given whether the element stored under `props.name` still
      has a parent (removeChild is called on that parent). */
  function UnmountStep(r: Record, props: Props, elementHasParent: bool): (s: Step)
    ensures s.record.ngModuleRef == r.ngModuleRef
    ensures props.name !in r.elements ==> s.outcome == Fail(InvalidElement)
    ensures s.outcome.Pass? <==> props.name in r.elements && elementHasParent
    ensures props.name in r.elements && !elementHasParent ==> s.outcome == Fail(TypeError)
    ensures s.outcome.Fail? ==> s.record == r
    ensures s.outcome.Pass? ==> props.name !in s.record.elements
    ensures forall n :: n != props.name ==>
      (n in s.record.elements <==> n in r.elements) &&
      (n in r.elements ==> s.record.elements[n] == r.elements[n])
  {
    if props.name !in r.elements then Step(r, Fail(InvalidElement))
    else if !elementHasParent then Step(r, Fail(TypeError))
    else Step(r.(elements := r.elements - {props.name}), Pass)
  }

  /** update(props): only forwards props. */
  function UpdateStep(r: Record, props: Props): (s: Step)
    ensures s.record == r
    ensures s.outcome.Pass? <==> IsValidModule(r.ngModuleRef)
    ensures s.outcome.Fail? ==> s.outcome.error == InvalidModule
  {
    Step(r, ForwardProps(r.ngModuleRef))
  }

  /** One hook call as the host framework makes it, with what the DOM shows at
      that moment. */
  datatype Call =
    | BootstrapCall(props: Props)
    | MountCall(props: Props, child: Element?, childHasParent: bool)
    | UnmountCall(props: Props, elementHasParent: bool)
    | UpdateCall(props: Props)

  function Apply(r: Record, bootstrapFunction: Option<BootstrapFunction>, c: Call): Step {
    match c
    case BootstrapCall(props) => BootstrapStep(r, bootstrapFunction, props)
    case MountCall(props, child, hasParent) => MountStep(r, props, child, hasParent)
    case UnmountCall(props, hasParent) => UnmountStep(r, props, hasParent)
    case UpdateCall(props) => UpdateStep(r, props)
  }

  /** The record after a sequence of hook calls, whatever each of them settles to. */
  function Run(r: Record, bootstrapFunction: Option<BootstrapFunction>, calls: seq<Call>): Record
    decreases |calls|
  {
    if calls == [] then r
    else Run(Apply(r, bootstrapFunction, calls[0]).record, bootstrapFunction, calls[1..])
  }

  /** How many times a sequence of hook calls invokes the user's bootstrap function. */
  function Invocations(r: Record, bootstrapFunction: Option<BootstrapFunction>, calls: seq<Call>): nat
    decreases |calls|
  {
    if calls == [] then 0
    else
      (if calls[0].BootstrapCall? && Invokes(r, bootstrapFunction) then 1 else 0)
      + Invocations(Apply(r, bootstrapFunction, calls[0]).record, bootstrapFunction, calls[1..])
  }

  /** The bootstrap function always resolves to a non-null module reference. */
  ghost predicate AlwaysYieldsModule(bootstrapFunction: Option<BootstrapFunction>) {
    bootstrapFunction.Some? &&
    forall p :: bootstrapFunction.value(p).Resolved? && bootstrapFunction.value(p).ref.Some?
  }

  /** Some call in `calls` mounted `e` under `name`, and `e` had a parent then. */
  ghost predicate MountedBy(calls: seq<Call>, name: string, e: Element) {
    exists i :: 0 <= i < |calls| && calls[i].MountCall? && calls[i].props.name == name &&
      calls[i].child == e && calls[i].childHasParent
  }

  // ---------------------------------------------------------------------------
  // Properties of single hooks

  /** A bootstrap that set the module reference makes every later bootstrap a
      no-op that does not call the bootstrap function again. */
  lemma BootstrapIsIdempotent(r: Record, bootstrapFunction: Option<BootstrapFunction>, p: Props, q: Props)
    requires BootstrapStep(r, bootstrapFunction, p).record.ngModuleRef.Some?
    ensures var once := BootstrapStep(r, bootstrapFunction, p).record;
      !Invokes(once, bootstrapFunction) && BootstrapStep(once, bootstrapFunction, q) == Step(once, Pass)
  {
  }

  /** Mounting a name and then unmounting it, with the element still attached,
      succeeds and leaves the table without that name and otherwise as before. */
  lemma MountThenUnmount(r: Record, props: Props, child: Element)
    ensures var mounted := MountStep(r, props, child, true).record;
      var s := UnmountStep(mounted, props, true);
      s.outcome == Pass && s.record == r.(elements := r.elements - {props.name})
  {
  }

  /** When the name was not mounted before, mount followed by unmount restores
      the record exactly. */
  lemma MountThenUnmountRestores(r: Record, props: Props, child: Element)
    requires props.name !in r.elements
    ensures UnmountStep(MountStep(r, props, child, true).record, props, true) == Step(r, Pass)
  {
  }

  // ---------------------------------------------------------------------------
  // Properties of sequences of hook calls

  /** Once the module reference is set, no sequence of hook calls changes it
      or calls the bootstrap function. */
  lemma {:induction false} NoInvocationOnceBootstrapped(
    r: Record, bootstrapFunction: Option<BootstrapFunction>, calls: seq<Call>)
    requires r.ngModuleRef.Some?
    ensures Invocations(r, bootstrapFunction, calls) == 0
    ensures Run(r, bootstrapFunction, calls).ngModuleRef == r.ngModuleRef
    decreases |calls|
  {
    if calls != [] {
      var next := Apply(r, bootstrapFunction, calls[0]).record;
      assert next.ngModuleRef == r.ngModuleRef;
      NoInvocationOnceBootstrapped(next, bootstrapFunction, calls[1..]);
    }
  }

  /** When the bootstrap function always yields a module, any sequence of hook
      calls invokes it at most once, and not at all once bootstrapped. */
  lemma {:induction false} BootstrapInvokedAtMostOnce(
    r: Record, bootstrapFunction: Option<BootstrapFunction>, calls: seq<Call>)
    requires AlwaysYieldsModule(bootstrapFunction)
    ensures Invocations(r, bootstrapFunction, calls) <= (if r.ngModuleRef.None? then 1 else 0)
    decreases |calls|
  {
    if r.ngModuleRef.Some? {
      NoInvocationOnceBootstrapped(r, bootstrapFunction, calls);
    } else if calls != [] {
      var next := Apply(r, bootstrapFunction, calls[0]).record;
      if calls[0].BootstrapCall? {
        assert bootstrapFunction.value(calls[0].props).Resolved?;
        assert next.ngModuleRef.Some?;
        NoInvocationOnceBootstrapped(next, bootstrapFunction, calls[1..]);
      } else {
        assert next.ngModuleRef == r.ngModuleRef;
        BootstrapInvokedAtMostOnce(next, bootstrapFunction, calls[1..]);
      }
    }
  }

  /** The null check is all that makes bootstrap one-shot: a bootstrap function
      that resolves to null, or rejects, is called again by the next bootstrap. */
  lemma UnsetReferenceInvokesAgain(bootstrapFunction: Option<BootstrapFunction>, p: Props)
    requires bootstrapFunction.Some?
    requires bootstrapFunction.value(p).Failed? || bootstrapFunction.value(p).ref.None?
    ensures Invocations(Initial, bootstrapFunction, [BootstrapCall(p), BootstrapCall(p)]) == 2
  {
    var one := [BootstrapCall(p)];
    assert Apply(Initial, bootstrapFunction, BootstrapCall(p)).record == Initial;
    assert one[1..] == [];
    assert Invocations(Initial, bootstrapFunction, one) == 1;
    assert [BootstrapCall(p), BootstrapCall(p)][1..] == one;
  }

  /** Every entry of the table either was there at the start, unchanged, or was
      put there by a mount whose element had a parent. */
  lemma {:induction false} EntriesComeFromMounts(
    r: Record, bootstrapFunction: Option<BootstrapFunction>, calls: seq<Call>, name: string)
    requires name in Run(r, bootstrapFunction, calls).elements
    ensures var e := Run(r, bootstrapFunction, calls).elements[name];
      (name in r.elements && r.elements[name] == e) || MountedBy(calls, name, e)
    decreases |calls|
  {
    if calls != [] {
      var c := calls[0];
      var next := Apply(r, bootstrapFunction, c).record;
      var e := Run(r, bootstrapFunction, calls).elements[name];
      assert Run(r, bootstrapFunction, calls) == Run(next, bootstrapFunction, calls[1..]);
      EntriesComeFromMounts(next, bootstrapFunction, calls[1..], name);
      if MountedBy(calls[1..], name, e) {
        var i :| 0 <= i < |calls[1..]| && calls[1..][i].MountCall? && calls[1..][i].props.name == name &&
          calls[1..][i].child == e && calls[1..][i].childHasParent;
        assert calls[i + 1] == calls[1..][i];
      } else if c.MountCall? && c.props.name == name && c.child != null && c.childHasParent {
        assert calls[0] == c;
      }
    }
  }

  /** A name that no call mounted cannot be unmounted: unmount rejects with the
      invalid-element error and changes nothing. */
  lemma UnmountNeverMountedFails(
    bootstrapFunction: Option<BootstrapFunction>, calls: seq<Call>, props: Props, elementHasParent: bool)
    requires forall i :: 0 <= i < |calls| && calls[i].MountCall? ==> calls[i].props.name != props.name
    ensures var r := Run(Initial, bootstrapFunction, calls);
      UnmountStep(r, props, elementHasParent) == Step(r, Fail(InvalidElement))
  {
    var r := Run(Initial, bootstrapFunction, calls);
    if props.name in r.elements {
      EntriesComeFromMounts(Initial, bootstrapFunction, calls, props.name);
    }
  }
}
