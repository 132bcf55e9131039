/** A duniterpy `Client`, reduced to what the checker observes: its endpoint and its `close` calls. */
module Clients {

  class Client {
    /** The endpoint the client was created for, as `str(client.endpoint)` renders it. */
    const endpoint: string
    /** How many times `close` has been awaited on this client. */
    var closes: nat

    constructor (endpoint: string)
      ensures this.endpoint == endpoint && closes == 0
    {
      this.endpoint := endpoint;
      closes := 0;
    }

    method Close()
      modifies this
      ensures closes == old(closes) + 1
    {
      closes := closes + 1;
    }
  }
}
