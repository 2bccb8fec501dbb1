/**
 * The parameter server's binding to its manager. The server holds a
 * non-owning, possibly null reference to a parameter manager; it starts
 * out null and is set when the server is started.
 */
module Server {
  import opened Manager

  class ParamServer {
    var manager: ParamManager?

    /** A new server has no manager bound. */
    constructor ()
      ensures manager == null
    {
      manager := null;
    }

    /** The manager currently bound, or null. */
    method GetParamManager() returns (m: ParamManager?)
      ensures m == manager
    {
      m := manager;
    }

    /**
     * Starts the server with the given manager. `registration` is the
     * status the service layer reports for registering the two handlers;
     * the result is negative exactly when that registration failed.
     */
    method Start(m: ParamManager?, registration: int) returns (status: int)
      modifies this
      ensures manager == m
      ensures status < 0 <==> registration < 0
    {
      manager := m;
      status := if registration < 0 then registration else 0;
    }
  }

  /** A freshly constructed server reports no manager. */
  method FreshServerHasNoManager() returns (m: ParamManager?)
    ensures m == null
  {
    var server := new ParamServer();
    m := server.GetParamManager();
  }

  /** After starting, the server reports the manager it was started with. */
  method StartedServerReportsManager(pm: ParamManager?, registration: int)
    returns (m: ParamManager?, status: int)
    ensures m == pm
    ensures status < 0 <==> registration < 0
  {
    var server := new ParamServer();
    status := server.Start(pm, registration);
    m := server.GetParamManager();
  }
}
