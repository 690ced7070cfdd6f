/**
 * The lifecycle of one simulated endpoint (class `Node` and its concrete
 * subclass `GenericNode` in node.py). The abstract base class only adds
 * the `_set_app` hook, which `GenericNode` fills in, so the two are one
 * class here.
 */
module NodeLifecycle {
  import opened Wrappers
  import opened Handles

  const DefaultAddress: string := "127.0.0.1"
  const DefaultPort: int := 8000
  /** The key of the simulated per-request latency in `comm_settings`. */
  const LatencyKey: string := "latency_s"

  /** What the activity callback observes of the node each time it is invoked. */
  datatype Notice = Notice(callback: Callback, isActive: bool)

  /** What the downstream handler (`call_next`) does with a request. */
  datatype Handled = Responded(body: string) | Raised

  /** The part of a node that its lifecycle operations do not change. */
  datatype Configuration = Configuration(
    address: string, port: int, commSettings: map<string, real>,
    callbackIsActive: Option<Callback>, isActive: bool, notices: seq<Notice>)

  class GenericNode {
    const name: Option<string>
    var isOnline: bool
    var isActive: bool

    var app: App?
    var address: string
    var port: int

    var commSettings: map<string, real>

    var server: Server?
    var thread: ServerThread?

    var callbackIsActive: Option<Callback>
    /** Every invocation of the activity callback, in order. */
    ghost var notices: seq<Notice>
    /** Every serving thread this node has told to exit and waited for, in order. */
    ghost var retired: seq<ServerThread>

    /**
     * The object invariant: the three handles exist exactly while the
     * node is online, and the running server is bound to the node's
     * current target.
     */
    ghost predicate Valid()
      reads this
    {
      (isOnline <==> server != null && thread != null) &&
      (isOnline <==> app != null) &&
      (server != null ==> server.app == app && server.host == address && server.port == port) &&
      (thread != null ==> thread.server == server)
    }

    /** Offline, with all three handles released. */
    ghost predicate Stopped()
      reads this
    {
      !isOnline && app == null && server == null && thread == null
    }

    /** What `start` and `stop` leave alone: the bind target, the settings, the callback and the activity record. */
    ghost function Config(): Configuration
      reads this
    {
      Configuration(address, port, commSettings, callbackIsActive, isActive, notices)
    }

    /** The application, server and serving thread, which `start` keeps on a node already online. */
    ghost function Handles(): (App?, Server?, ServerThread?)
      reads this
    {
      (app, server, thread)
    }

    /** The joined-thread log as it stands once this node has been stopped. */
    ghost function RetiredOnStop(): seq<ServerThread>
      reads this
    {
      if isOnline && thread != null then retired + [thread] else retired
    }

    /** What `stop` keeps: the configuration and the joined-thread log as it stands once stopped. */
    ghost function KeptByStop(): (Configuration, seq<ServerThread>)
      reads this
    {
      (Config(), RetiredOnStop())
    }

    constructor (name: Option<string> := None, address: string := DefaultAddress,
                 port: int := DefaultPort, callbackIsActive: Option<Callback> := None)
      ensures Valid()
      ensures this.name == name && this.address == address && this.port == port
      ensures this.callbackIsActive == callbackIsActive
      ensures !isOnline && !isActive
      ensures app == null && server == null && thread == null
      ensures commSettings == map[LatencyKey := 0.0]
      ensures notices == [] && retired == []
    {
      this.name := name;
      isOnline := false;
      isActive := false;
      app := null;
      this.address := address;
      this.port := port;
      commSettings := map[];
      server := null;
      thread := null;
      this.callbackIsActive := callbackIsActive;
      notices := [];
      retired := [];
      new;
      SetCommSettings();
    }

    /** `set_host`: refused while online; otherwise rebinds the target and nothing else. */
    method SetHost(address: string, port: int) returns (r: Outcome)
      requires Valid()
      modifies this
      ensures Valid()
      ensures r == (if old(isOnline) then Failure(HostLockedWhileOnline) else Success)
      ensures old(isOnline) ==> this.address == old(this.address) && this.port == old(this.port)
      ensures !old(isOnline) ==> this.address == address && this.port == port
      ensures isOnline == old(isOnline) && isActive == old(isActive)
      ensures app == old(app) && server == old(server) && thread == old(thread)
      ensures commSettings == old(commSettings) && callbackIsActive == old(callbackIsActive)
      ensures notices == old(notices) && retired == old(retired)
    {
      if isOnline {
        return Failure(HostLockedWhileOnline);
      }
      this.address := address;
      this.port := port;
      return Success;
    }

    /** `set_comm_settings`: legal in every state; writes only the latency entry. */
    method SetCommSettings(latency: real := 0.0)
      modifies this
      ensures commSettings == old(commSettings)[LatencyKey := latency]
      ensures isOnline == old(isOnline) && isActive == old(isActive)
      ensures address == old(address) && port == old(port)
      ensures app == old(app) && server == old(server) && thread == old(thread)
      ensures callbackIsActive == old(callbackIsActive) && notices == old(notices) && retired == old(retired)
      ensures old(Valid()) ==> Valid()
    {
      commSettings := commSettings[LatencyKey := latency];
    }

    /**
     * `start`: a no-op when online; otherwise builds the application,
     * configures a server on the current bind target, spawns the serving
     * thread and marks the node online.
     */
    method Start()
      requires Valid()
      modifies this
      ensures Valid()
      ensures old(isOnline) ==> Handles() == old(Handles())
      ensures !old(isOnline) ==> fresh(app) && fresh(server) && fresh(thread)
      ensures isOnline
      ensures Config() == old(Config()) && retired == old(retired)
    {
      if isOnline {
        return;
      }
      app := new App();
      server := new Server(app, address, port);
      thread := new ServerThread(server);
      // the serving thread starts here
      isOnline := true;
    }

    /**
     * `stop`: a no-op when offline; otherwise sets the server's
     * `should_exit`, joins the serving thread (recorded in `retired`) and
     * drops all three handles.
     */
    method Stop()
      requires Valid()
      modifies this
      ensures Valid() && Stopped()
      ensures retired == if old(isOnline) then old(retired) + [old(thread)] else old(retired)
      ensures Config() == old(Config())
      ensures KeptByStop() == old(KeptByStop())
    {
      if isOnline {
        // the server is told to exit and its thread is joined
        retired := retired + [thread];
        app := null;
        isOnline := false;
        server := null;
        thread := null;
      }
    }

    /**
     * The `get_active_requests` middleware around one request. With a
     * callback registered it marks the node active and notifies, runs the
     * handler, then marks it inactive and notifies again. A handler that
     * raises skips the second half: there is no `finally`.
     */
    method ServeRequest(callNext: Handled) returns (r: Handled)
      modifies this
      ensures r == callNext
      ensures callbackIsActive.Some? && callNext.Responded? ==>
        !isActive &&
        notices == old(notices) + [Notice(callbackIsActive.value, true), Notice(callbackIsActive.value, false)]
      ensures callbackIsActive.Some? && callNext.Raised? ==>
        isActive && notices == old(notices) + [Notice(callbackIsActive.value, true)]
      ensures callbackIsActive.None? ==> isActive == old(isActive) && notices == old(notices)
      ensures isOnline == old(isOnline) && address == old(address) && port == old(port)
      ensures app == old(app) && server == old(server) && thread == old(thread)
      ensures commSettings == old(commSettings) && callbackIsActive == old(callbackIsActive)
      ensures retired == old(retired)
      ensures old(Valid()) ==> Valid()
    {
      if callbackIsActive.Some? {
        isActive := true;
        notices := notices + [Notice(callbackIsActive.value, isActive)];
      }
      if callNext.Raised? {
        return callNext;
      }
      if callbackIsActive.Some? {
        isActive := false;
        notices := notices + [Notice(callbackIsActive.value, isActive)];
      }
      return callNext;
    }
  }
}
