/** The lifecycle adapter of libs/single-spa-angular/elements: the options
    record that one registration's hooks share, the hooks as methods that
    update it in place, and the factory that merges user options over the
    defaults and decides which hooks to expose. */
module Elements {
  import opened Wrappers
  import opened Dom
  import opened PropsProviders
  import opened Lifecycle

  /** A user option: left out of the options object, or given (possibly as an
      explicit `undefined`, which the inner Option holds as None). */
  datatype Supplied<T> = Omitted | Given(value: T)

  /** The options a registration passes in. */
  datatype UserOptions = UserOptions(
    template: Supplied<Option<string>>,
    bootstrapFunction: Supplied<Option<BootstrapFunction>>,
    parcelCanUpdate: Supplied<Option<bool>>)

  /** The configuration part of the options record; None is null or undefined. */
  datatype Config = Config(
    template: Option<string>,
    bootstrapFunction: Option<BootstrapFunction>,
    parcelCanUpdate: Option<bool>)

  /** The configuration fields of `defaultOptions`: no template, no bootstrap
      function, updates allowed. */
  const DefaultConfig: Config := Config(None, None, Some(true))

  /** One field of `{ ...defaults, ...userOptions }`. */
  function Spread<T>(default: T, user: Supplied<T>): T {
    match user
    case Omitted => default
    case Given(v) => v
  }

  /** `{ ...defaults, ...userOptions }`: every option the user gives wins,
      every other keeps its default. */
  function MergeOptions(defaults: Config, user: UserOptions): (c: Config)
    ensures user.template.Given? ==> c.template == user.template.value
    ensures user.template.Omitted? ==> c.template == defaults.template
    ensures user.bootstrapFunction.Given? ==> c.bootstrapFunction == user.bootstrapFunction.value
    ensures user.bootstrapFunction.Omitted? ==> c.bootstrapFunction == defaults.bootstrapFunction
    ensures user.parcelCanUpdate.Given? ==> c.parcelCanUpdate == user.parcelCanUpdate.value
    ensures user.parcelCanUpdate.Omitted? ==> c.parcelCanUpdate == defaults.parcelCanUpdate
  {
    Config(
      Spread(defaults.template, user.template),
      Spread(defaults.bootstrapFunction, user.bootstrapFunction),
      Spread(defaults.parcelCanUpdate, user.parcelCanUpdate))
  }

  /** The names of the hooks a registration returns. */
  datatype Hook = BootstrapHook | MountHook | UnmountHook | UpdateHook

  /** The hooks exposed for a given `parcelCanUpdate`: the three mandatory ones
      always, `update` only when the flag is truthy. */
  function ExposedHooks(parcelCanUpdate: Option<bool>): (hooks: set<Hook>)
    ensures BootstrapHook in hooks && MountHook in hooks && UnmountHook in hooks
    ensures UpdateHook in hooks <==> parcelCanUpdate == Some(true)
  {
    {BootstrapHook, MountHook, UnmountHook} + (if parcelCanUpdate == Some(true) then {UpdateHook} else {})
  }

  /** The options record one registration's hooks are bound to. The mutex that
      serialises bootstraps, the template and the container getter only matter
      to code outside this model and are kept as plain values or left out. */
  class BootstrappedOptions {
    var ngModuleRef: Option<ModuleRef>
    var elements: map<string, Element>
    const template: Option<string>
    const bootstrapFunction: Option<BootstrapFunction>
    const parcelCanUpdate: Option<bool>

    /** A record built from `config`, with the default null module reference
        and an empty table. */
    constructor (config: Config)
      ensures State() == Initial
      ensures Configuration() == config
    {
      ngModuleRef := None;
      elements := map[];
      template := config.template;
      bootstrapFunction := config.bootstrapFunction;
      parcelCanUpdate := config.parcelCanUpdate;
    }

    /** The fields the hooks update. */
    function State(): Record
      reads this
    {
      Record(ngModuleRef, elements)
    }

    function Configuration(): Config {
      Config(template, bootstrapFunction, parcelCanUpdate)
    }

    /** What setPropsService may write: the props service of a valid module. */
    function PropsFrame(): set<object>
      reads this
    {
      var service := PropsTarget(ngModuleRef);
      if service == null then {} else {service}
    }

    /** What unmount may detach: the element stored under `name`. */
    function DetachFrame(name: string): set<object>
      reads this
    {
      if name in elements then {elements[name]} else {}
    }

    /** Whether the element stored under `name` has a parent. */
    predicate AttachedUnder(name: string)
      reads this, DetachFrame(name)
    {
      name in elements && elements[name].hasParent
    }

    /** setPropsService(options, props): rejects unless the module reference is
        set and has `destroy`; otherwise stores `props` under `props.name` in the
        module's props service, if the injector has one. */
    method SetPropsService(props: Props) returns (outcome: Outcome<Error>)
      modifies PropsFrame()
      ensures State() == old(State())
      ensures outcome == ForwardProps(ngModuleRef)
      ensures PropsTarget(ngModuleRef) != null ==>
        PropsTarget(ngModuleRef).props == old(PropsTarget(ngModuleRef).props)[props.name := props]
    {
      if ngModuleRef.None? || !ngModuleRef.value.hasDestroy {
        return Fail(InvalidModule);
      }
      var service := ngModuleRef.value.propsService;
      if service != null {
        service.SetProps(props.name, props);
      }
      return Pass;
    }

    /** bootstrap(props): does nothing once the module reference is set;
        otherwise calls the bootstrap function and stores what it resolves to.
        `invoked` says whether the bootstrap function ran. */
    method Bootstrap(props: Props) returns (outcome: Outcome<Error>, invoked: bool)
      modifies this
      ensures invoked == Invokes(old(State()), bootstrapFunction)
      ensures Step(State(), outcome) == BootstrapStep(old(State()), bootstrapFunction, props)
      ensures old(ngModuleRef).Some? ==> State() == old(State()) && outcome == Pass
    {
      if ngModuleRef.Some? {
        return Pass, false;
      }
      if bootstrapFunction.None? {
        return Fail(TypeError), false;
      }
      invoked := true;
      var resolution := bootstrapFunction.value(props);
      match resolution
      case Failed =>
        outcome := Fail(BootstrapRejected);
      case Resolved(ref) =>
        ngModuleRef := ref;
        outcome := Pass;
    }

    /** mount(props), where `child` is the first element child of the container
        resolved for `props.name`. Rejects before touching the table when there
        is no child or it has no parent; otherwise stores the child under
        `props.name` and then forwards props, which may still reject. */
    method Mount(props: Props, child: Element?) returns (outcome: Outcome<Error>)
      modifies this, PropsFrame()
      ensures Step(State(), outcome) == MountStep(old(State()), props, child, child != null && child.hasParent)
      ensures outcome == Fail(InvalidElement) ==> unchanged(PropsFrame())
      ensures outcome != Fail(InvalidElement) && PropsTarget(ngModuleRef) != null ==>
        PropsTarget(ngModuleRef).props == old(PropsTarget(ngModuleRef).props)[props.name := props]
    {
      if child == null || !child.hasParent {
        return Fail(InvalidElement);
      }
      elements := elements[props.name := child];
      outcome := SetPropsService(props);
    }

    /** unmount(props): rejects when nothing is stored under `props.name`;
        otherwise detaches the stored element from its parent (a TypeError when
        it has none) and deletes the entry. */
    method Unmount(props: Props) returns (outcome: Outcome<Error>)
      modifies this, DetachFrame(props.name)
      ensures Step(State(), outcome) == UnmountStep(old(State()), props, old(AttachedUnder(props.name)))
      ensures outcome.Pass? ==> !old(elements[props.name]).hasParent
      ensures outcome.Fail? ==> unchanged(old(DetachFrame(props.name)))
    {
      if props.name !in elements {
        return Fail(InvalidElement);
      }
      var element := elements[props.name];
      if !element.hasParent {
        return Fail(TypeError);
      }
      element.Detach();
      elements := elements - {props.name};
      outcome := Pass;
    }

    /** update(props): forwards props and nothing else. */
    method Update(props: Props) returns (outcome: Outcome<Error>)
      modifies PropsFrame()
      ensures Step(State(), outcome) == UpdateStep(old(State()), props)
      ensures PropsTarget(ngModuleRef) != null ==>
        PropsTarget(ngModuleRef).props == old(PropsTarget(ngModuleRef).props)[props.name := props]
    {
      outcome := SetPropsService(props);
    }
  }

  /** The lifecycle object a registration returns: the hooks it exposes, all
      bound to the same options record. */
  datatype LifeCycles = LifeCycles(options: BootstrappedOptions, hooks: set<Hook>)

  /** singleSpaAngularElements(userOptions): a fresh options record from the
      merged options, with `update` exposed only when `parcelCanUpdate` is
      truthy. */
  method SingleSpaAngularElements(user: UserOptions) returns (lifecycles: LifeCycles)
    ensures fresh(lifecycles.options)
    ensures lifecycles.options.State() == Initial
    ensures lifecycles.options.Configuration() == MergeOptions(DefaultConfig, user)
    ensures lifecycles.hooks == ExposedHooks(lifecycles.options.parcelCanUpdate)
  {
    var options := new BootstrappedOptions(MergeOptions(DefaultConfig, user));
    var hooks := {BootstrapHook, MountHook, UnmountHook};
    if options.parcelCanUpdate == Some(true) {
      hooks := hooks + {UpdateHook};
    }
    lifecycles := LifeCycles(options, hooks);
  }

  /** `parcelCanUpdate` defaults to true, so `update` is exposed unless the user
      turns it off; an explicit `undefined` turns it off as well, since the
      spread copies it over the default. */
  lemma UpdateExposure(user: UserOptions)
    ensures var hooks := ExposedHooks(MergeOptions(DefaultConfig, user).parcelCanUpdate);
      && (user.parcelCanUpdate.Omitted? ==> UpdateHook in hooks)
      && (user.parcelCanUpdate == Given(None) ==> UpdateHook !in hooks)
      && (forall b :: user.parcelCanUpdate == Given(Some(b)) ==> (UpdateHook in hooks <==> b))
  {
  }
}
