# single-spa-angular elements adapter, modelled in Dafny

The package `@essquare/single-spa-angular/elements` lets an Angular application
that exposes custom elements register with single-spa. `singleSpaAngularElements`
merges the user's options over a default options record and returns the
lifecycle hooks `bootstrap`, `mount`, `unmount` and, when `parcelCanUpdate` is
truthy, `update`, all bound to that one record. The record holds the Angular
module reference (`ngModuleRef`, null until a bootstrap whose function resolves
to a non-null value), a table from
application instance name to the mounted custom element (`elements`) and the
configuration.

The model has five modules:

- `Wrappers`: `Option` (a value that may be null) and `Outcome` (a hook that
  completes or rejects with an error).
- `Dom`: an `Element` class. Its only field, `hasParent`, stands for a non-null
  `parentElement`. `Detach` is `parentElement.removeChild(element)`.
- `PropsProviders`: the props object (`Props`, of which only `name` is read) and
  the props service reached through Angular's injector. The service is a class
  holding a name-to-props map that `SetProps` overwrites.
- `Lifecycle`: a value model of the record (`Record`). It has one step function
  per hook, giving the new record and how the hook settles. It also has a
  function that replays any sequence of hook calls, and the lemmas about single
  hooks and about sequences.
- `Elements`: the options record as a class (`BootstrappedOptions`) whose
  methods update `ngModuleRef` and `elements` in place. It also holds the merge
  of user options over the defaults, the choice of exposed hooks and the factory
  `SingleSpaAngularElements`. Each hook method is proved equal to its step
  function in `Lifecycle`, and also states what it does to the DOM element and
  to the props service.

Inputs from outside the adapter become parameters:

- The user's bootstrap function is a field of type `Option<BootstrapFunction>`,
  where `BootstrapFunction` is `Props -> Resolution`. `None` stands for the null
  default of `defaultOptions`. The function's promise resolves to a module
  reference, resolves to null, or rejects.
- The container's first element child is a parameter of `Mount`: an
  `Element?`, which is null when the container has no element child.
- A module reference is reduced to two things: whether it has a `destroy`
  function, and which props service (possibly null) its injector returns.

## Behaviour as written

The model follows the code in `libs/single-spa-angular/elements/src/index.ts`.
Several cases are easy to miss on a first reading:

- `mount` checks the element before it changes the table. It checks the module
  reference only after inserting the element, in `setPropsService`. So a mount
  with no valid module rejects with the invalid-module error, and the new entry
  stays in the table (`Lifecycle.MountStep`).
- `bootstrap` is one-shot only because it checks whether `ngModuleRef` is null.
  If the bootstrap function resolves to null, the next bootstrap calls it again.
  The same happens when its promise rejects (`Lifecycle.UnsetReferenceInvokesAgain`).
  The `bootstrapFunction` default is null, so bootstrapping without one is a
  TypeError.
- `unmount` calls `removeChild` on the stored element's parent. If that element
  has lost its parent, this is a TypeError and the entry is not deleted. Nothing
  in the code keeps every stored element attached. For example, one element may
  be stored under two names, and unmounting one name detaches it for both.
- `update` does not check that the instance is mounted. Its promise rejects with
  the invalid-module error exactly when `setPropsService` throws, so that error
  is not lost.
- The merge is a spread. A user option that is present with the value
  `undefined` overrides the default. In particular, an explicit
  `parcelCanUpdate: undefined` hides `update` (`Elements.UpdateExposure`).

## Model

| member | source | states |
|---|---|---|
| `Lifecycle.BootstrapStep` | libs/single-spa-angular/elements/src/index.ts:38-49 | bootstrap never touches the element table; with the module reference already set it succeeds and changes nothing; it succeeds exactly when the reference was set or the bootstrap function ran and resolved; when the function is invoked and resolves, the reference becomes the resolved value, and it changes to nothing else; with no function configured it rejects with a TypeError, and when the function's promise rejects it rejects with the bootstrap-rejected error |
| `Lifecycle.MountStep` | libs/single-spa-angular/elements/src/index.ts:50-63 | mount rejects with the invalid-element error exactly when there is no first child or it has no parent, and then changes nothing; otherwise the name maps to that child, other names keep their entries, and it succeeds exactly when the module reference is set and has `destroy`, rejecting with the invalid-module error otherwise (the entry survives that rejection); the module reference never changes |
| `Lifecycle.UnmountStep` | libs/single-spa-angular/elements/src/index.ts:65-78 | an absent name rejects with the invalid-element error; unmount succeeds exactly when the name is present and its element has a parent, and then removes exactly that key; a present element without a parent rejects with a TypeError; a failed unmount changes nothing; the module reference and all other entries are untouched |
| `Lifecycle.UpdateStep` | libs/single-spa-angular/elements/src/index.ts:80-87 | update never changes the record; it rejects, with the invalid-module error only, exactly when the module reference is null or lacks `destroy` |
| `Lifecycle.BootstrapIsIdempotent` | libs/single-spa-angular/elements/src/index.ts:40-47 | after a bootstrap that set the module reference, a later bootstrap does not call the bootstrap function, succeeds and leaves the record as it is |
| `Lifecycle.NoInvocationOnceBootstrapped` | libs/single-spa-angular/elements/src/index.ts:38-49 | once the module reference is set, no sequence of hook calls changes it or calls the bootstrap function |
| `Lifecycle.BootstrapInvokedAtMostOnce` | libs/single-spa-angular/elements/src/index.ts:38-49 | when the bootstrap function always resolves to a module, any sequence of hook calls runs it at most once, and never when the reference is already set |
| `Lifecycle.UnsetReferenceInvokesAgain` | libs/single-spa-angular/elements/src/index.ts:40-47 | if the bootstrap function resolves to null or rejects, two bootstraps on a fresh record call it twice |
| `Lifecycle.MountThenUnmount` | libs/single-spa-angular/elements/src/index.ts:50-77 | mounting a name with an attached child and then unmounting it succeeds and leaves the table equal to the original table without that name |
| `Lifecycle.MountThenUnmountRestores` | libs/single-spa-angular/elements/src/index.ts:50-77 | for a name that was not mounted, mount followed by unmount restores the record exactly |
| `Lifecycle.EntriesComeFromMounts` | libs/single-spa-angular/elements/src/index.ts:56-61 | after any sequence of hook calls, every table entry was either there at the start, unchanged, or stored by a mount whose child had a parent at that moment |
| `Lifecycle.UnmountNeverMountedFails` | libs/single-spa-angular/elements/src/index.ts:69-73 | after any sequence of hook calls from a fresh record that never mounted a name, unmounting that name rejects with the invalid-element error and changes nothing |
| `Elements.MergeOptions` | libs/single-spa-angular/elements/src/index.ts:90-93 | each option the user gives, even as `undefined`, overrides the default; every omitted option keeps the default |
| `Elements.ExposedHooks` | libs/single-spa-angular/elements/src/index.ts:95-103 | bootstrap, mount and unmount are always exposed; update is exposed exactly when `parcelCanUpdate` is true |
| `Elements.UpdateExposure` | libs/single-spa-angular/elements/src/index.ts:12-20 | with the defaults, update is exposed when `parcelCanUpdate` is omitted, hidden when it is given as `undefined`, and otherwise follows the given flag |
| `Elements.BootstrappedOptions.constructor` | libs/single-spa-angular/elements/src/index.ts:12-20 | a new record starts with a null module reference and an empty table and holds the given configuration |
| `Elements.BootstrappedOptions.SetPropsService` | libs/single-spa-angular/elements/src/index.ts:22-36 | rejects with the invalid-module error unless the module reference is set and has `destroy`; otherwise writes `props` under `props.name` into the module's props service when there is one, and changes nothing else |
| `Elements.BootstrappedOptions.Bootstrap` | libs/single-spa-angular/elements/src/index.ts:38-49 | the record and the outcome are those of `BootstrapStep`; the bootstrap function runs exactly when the reference is null and a function is configured; with the reference set nothing changes |
| `Elements.BootstrappedOptions.Mount` | libs/single-spa-angular/elements/src/index.ts:50-63 | the record and the outcome are those of `MountStep` for the child and its parent flag; an invalid element leaves the props service untouched; otherwise props are written under `props.name` when the module is valid and has a props service |
| `Elements.BootstrappedOptions.Unmount` | libs/single-spa-angular/elements/src/index.ts:65-78 | the record and the outcome are those of `UnmountStep` for the stored element's parent flag; on success the stored element is detached; on failure no element changes |
| `Elements.BootstrappedOptions.Update` | libs/single-spa-angular/elements/src/index.ts:80-87 | the record and the outcome are those of `UpdateStep`; the only write is props under `props.name` into a valid module's props service |
| `Elements.SingleSpaAngularElements` | libs/single-spa-angular/elements/src/index.ts:89-106 | returns a fresh record with a null module reference, an empty table and the merged configuration, with exactly the hooks `ExposedHooks` gives for its `parcelCanUpdate` |
| `PropsProviders.SingleSpaElementPropsService.SetProps` | libs/single-spa-angular/elements/src/index.ts:33-35 | stores the props under the name, so a later lookup returns the latest props stored, and every other name keeps what it had |
| `Dom.Element.Detach` | libs/single-spa-angular/elements/src/index.ts:75 | removing an attached element from its parent leaves it without a parent |

## Left out

- The `Mutex` around bootstrap (index.ts:39) and every async interleaving. Hooks run one after another, and bootstrap is one-shot because of its null check alone. Concurrent bootstraps, which the mutex serialises, are not modelled.
- Promises: a thrown error and a rejected promise are the same `Fail` outcome. A hook's effects are those it has when it settles.
- Container resolution (`getContainerElementAndSetTemplate`, index.ts:51). It is not part of this model, and neither are the `template` and `domElementGetter` options it reads. `template` is kept as an opaque configuration value. `domElementGetter` is not represented. `Mount` receives the container's first element child as a parameter.
- The DOM beyond one parent flag per element: parents' identities, children and `disconnectedCallback` teardown are not represented.
- A module reference that has a `destroy` function but whose `injector` is missing or whose `injector.get` throws (index.ts:29). It passes the guard at index.ts:23 and then throws, but the model cannot represent it: every `ModuleRef` answers the injector lookup with a service or null.
- Angular's injector and the props service's implementation (`element-props-providers`, not part of this model). A module reference carries the service its injector returns, and the service is a name-to-props map.
- The option types and the `Mutex` class (`types.ts`, not part of this model). Of the user options, only `template`, `bootstrapFunction` and `parcelCanUpdate` are modelled; a user-supplied `elements`, `ngModuleRef`, `mutex` or `domElementGetter` is not.
- Elements.SingleSpaAngularElements: promises an empty table for every registration. In the code, the default `elements` Map (index.ts:13) and `Mutex` (index.ts:19) are single objects that the spread at index.ts:90-93 copies by reference. So every registration that does not supply its own shares one table and one mutex. The model covers one registration and does not capture this sharing.
- `schematics/ng-add/tests/utils.ts`: test fixture code that drives an external schematic runner. It has no logic to model.
