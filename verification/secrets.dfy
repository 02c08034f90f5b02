/** Secrets as the API server keeps them. */
module Secrets {
  import opened Licenses

  /** The licence Secret of one cluster; no data until it is created. */
  class Secret {
    var data: Option<map<string, Bytes>>

    constructor ()
      ensures data == None
    {
      data := None;
    }
  }
}
