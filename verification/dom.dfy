/** The slice of the DOM the adapter touches: an element node and whether it
    currently has a parent node. Tree structure, tags and attributes are not
    part of this model. */
module Dom {

  class Element {
    /** True while `parentElement` is not null. */
    var hasParent: bool

    constructor (attached: bool)
      ensures hasParent == attached
    {
      hasParent := attached;
    }

    /** `parentElement.removeChild(this)`: the node loses its parent. */
    method Detach()
      requires hasParent
      modifies this
      ensures !hasParent
    {
      hasParent := false;
    }
  }
}
