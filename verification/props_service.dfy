/** The props bridge that the Angular injector hands out: a store of the latest
    props object per application instance name. */
module PropsProviders {
  import opened Wrappers

  /** The props object single-spa passes to every lifecycle hook. Only `name` is
      read by the adapter; `custom` stands for every other property. */
  datatype Props = Props(name: string, custom: map<string, string>)

  class SingleSpaElementPropsService {
    var props: map<string, Props>

    constructor ()
      ensures props == map[]
    {
      props := map[];
    }

    /** The props most recently stored for `name`, if any. */
    function GetProps(name: string): Option<Props>
      reads this
    {
      if name in props then Some(props[name]) else None
    }

    /** Stores `p` under `name`, replacing whatever was there. */
    method SetProps(name: string, p: Props)
      modifies this
      ensures props == old(props)[name := p]
      ensures GetProps(name) == Some(p)
      ensures forall other :: other != name ==> GetProps(other) == old(GetProps(other))
    {
      props := props[name := p];
    }
  }
}
