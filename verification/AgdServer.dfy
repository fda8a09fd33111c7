/**
 * The registry of port handlers through which the VM calls the Go side:
 * golang/cosmos/vm/server.go. Each method runs under the server's mutex, so it is
 * one step.
 */
module AgdServer {
  import opened Wrappers

  datatype Reply = Reply(resp: string, err: Option<string>)
  /** A handler answers the data of a message in the controller's current context. */
  type Handler = (nat, string) -> Reply
  datatype ServerError = NameInUse | PortNotRegistered | UnregisteredPort

  datatype Registry = Registry(
    lastPort: nat,
    portToHandler: map<int, Handler>,
    portToName: map<int, string>,
    nameToPort: map<string, int>)

  const EMPTY: Registry := Registry(0, map[], map[], map[])

  /** Names and ports are paired off, and every port was handed out by this server. */
  ghost predicate Inv(r: Registry) {
    && r.portToHandler.Keys == r.portToName.Keys
    && (forall i :: i in r.portToName ==> 0 < i <= r.lastPort)
    && (forall i :: i in r.portToName ==> r.portToName[i] in r.nameToPort && r.nameToPort[r.portToName[i]] == i)
    && (forall s :: s in r.nameToPort ==> r.nameToPort[s] in r.portToName && r.portToName[r.nameToPort[s]] == s)
  }

  function Register(r: Registry, name: string, handler: Handler): (Registry, Result<int, ServerError>) {
    if name in r.nameToPort then (r, Err(NameInUse))
    else
      var port := r.lastPort + 1;
      (Registry(port, r.portToHandler[port := handler], r.portToName[port := name], r.nameToPort[name := port]), Ok(port))
  }

  function Unregister(r: Registry, port: int): (Registry, Result<(), ServerError>) {
    if port !in r.portToHandler then (r, Err(PortNotRegistered))
    else
      // an absent port reads as the empty name
      var name := if port in r.portToName then r.portToName[port] else "";
      (r.(portToHandler := r.portToHandler - {port}, portToName := r.portToName - {port}, nameToPort := r.nameToPort - {name}), Ok(()))
  }

  function GetPort(r: Registry, name: string): int {
    if name in r.nameToPort then r.nameToPort[name] else 0
  }

  lemma RegisterInv(r: Registry, name: string, handler: Handler)
    requires Inv(r)
    ensures Inv(Register(r, name, handler).0)
    ensures Register(r, name, handler).1.Ok? <==> GetPort(r, name) == 0
    ensures Register(r, name, handler).1.Ok? ==>
              var port := Register(r, name, handler).1.value;
              && port !in r.portToHandler && GetPort(Register(r, name, handler).0, name) == port
              && (forall other :: other != name ==> GetPort(Register(r, name, handler).0, other) == GetPort(r, other))
              && Register(r, name, handler).0.portToHandler == r.portToHandler[port := handler]
              && port == r.lastPort + 1 == Register(r, name, handler).0.lastPort
    ensures Register(r, name, handler).1.Err? ==> Register(r, name, handler) == (r, Err(NameInUse))
  {
  }

  lemma UnregisterInv(r: Registry, port: int)
    requires Inv(r)
    ensures Inv(Unregister(r, port).0)
    ensures Unregister(r, port).1.Ok? <==> exists name :: port != 0 && GetPort(r, name) == port
    ensures Unregister(r, port).1.Err? ==> Unregister(r, port) == (r, Err(PortNotRegistered))
    ensures Unregister(r, port).1.Ok? ==>
              && Unregister(r, port).0.lastPort == r.lastPort
              && Unregister(r, port).0.portToHandler == r.portToHandler - {port}
              && port !in Unregister(r, port).0.portToHandler
              && forall name :: GetPort(Unregister(r, port).0, name) == if GetPort(r, name) == port then 0 else GetPort(r, name)
  {
    if port in r.portToHandler {
      assert port in r.portToName;
      assert GetPort(r, r.portToName[port]) == port;
      var t := Unregister(r, port).0;
      forall i | i in t.portToName ensures t.portToName[i] in t.nameToPort {
        assert i in r.portToName && r.nameToPort[r.portToName[i]] == i;
      }
      forall s | s in t.nameToPort ensures t.nameToPort[s] in t.portToName {
        assert r.portToName[r.nameToPort[s]] == s;
      }
      assert t.portToHandler.Keys == t.portToName.Keys;
    }
  }

  /** Unregistering what was just registered restores every mapping, but not the port number. */
  lemma UnregisterUndoesRegister(r: Registry, name: string, handler: Handler)
    requires Inv(r) && name !in r.nameToPort
    ensures var (t, port) := Register(r, name, handler);
            Unregister(t, port.value) == (r.(lastPort := r.lastPort + 1), Ok(()))
  {
    var (t, port) := Register(r, name, handler);
    assert r.lastPort + 1 !in r.portToName;
    assert t.portToHandler - {port.value} == r.portToHandler;
    assert t.portToName - {port.value} == r.portToName;
    assert t.nameToPort - {name} == r.nameToPort;
  }

  /** The name at a port as Go reads it, empty when absent. */
  function NameAt(r: Registry, i: int): string {
    if i in r.portToName then r.portToName[i] else ""
  }

  /** The comment on portToHandler, "nonzero iff portToName[i] is nonempty", holds exactly while no handler has the empty name. */
  lemma HandlerIffNamed(r: Registry)
    requires Inv(r)
    ensures (forall i :: i in r.portToHandler <==> NameAt(r, i) != "") <==> "" !in r.nameToPort
  {
    if "" in r.nameToPort {
      var i := r.nameToPort[""];
      assert i in r.portToName && i in r.portToHandler && NameAt(r, i) == "";
    } else {
      forall i ensures i in r.portToHandler <==> NameAt(r, i) != "" {
        assert i in r.portToHandler <==> i in r.portToName;
      }
    }
  }

  /** A registration that makes the difference: under the empty name, which a server that has it free accepts. */
  lemma EmptyNameExample(r: Registry, handler: Handler)
    requires Inv(r) && "" !in r.nameToPort
    ensures var (t, port) := Register(r, "", handler);
            && port.Ok? && Inv(t) && port.value in t.portToHandler && NameAt(t, port.value) == ""
            && (forall i :: i in r.portToHandler <==> NameAt(r, i) != "")
            && !(forall i :: i in t.portToHandler <==> NameAt(t, i) != "")
  {
    RegisterInv(r, "", handler);
    HandlerIffNamed(r);
    HandlerIffNamed(Register(r, "", handler).0);
  }

  class AgdServerObject {
    var currentCtx: nat
    var lastPort: nat
    var portToHandler: map<int, Handler>
    var portToName: map<int, string>
    var nameToPort: map<string, int>

    ghost function Abs(): Registry
      reads this
    {
      Registry(lastPort, portToHandler, portToName, nameToPort)
    }

    constructor ()
      ensures Abs() == EMPTY && Inv(Abs()) && currentCtx == 0
    {
      currentCtx, lastPort, portToHandler, portToName, nameToPort := 0, 0, map[], map[], map[];
    }

    method SetControllerContext(ctx: nat)
      modifies this`currentCtx
      ensures currentCtx == ctx
    {
      currentCtx := ctx;
    }

    method RegisterPortHandler(name: string, handler: Handler) returns (r: Result<int, ServerError>)
      requires Inv(Abs())
      modifies this`lastPort, this`portToHandler, this`portToName, this`nameToPort
      ensures Inv(Abs()) && (Abs(), r) == Register(old(Abs()), name, handler)
    {
      RegisterInv(Abs(), name, handler);
      if name in nameToPort { return Err(NameInUse); }
      lastPort := lastPort + 1;
      portToHandler := portToHandler[lastPort := handler];
      portToName := portToName[lastPort := name];
      nameToPort := nameToPort[name := lastPort];
      return Ok(lastPort);
    }

    method UnregisterPortHandler(portNum: int) returns (r: Result<(), ServerError>)
      requires Inv(Abs())
      modifies this`portToHandler, this`portToName, this`nameToPort
      ensures Inv(Abs()) && (Abs(), r) == Unregister(old(Abs()), portNum)
    {
      UnregisterInv(Abs(), portNum);
      hide Inv;
      if portNum !in portToHandler { return Err(PortNotRegistered); }
      portToHandler := portToHandler - {portNum};
      var name := if portNum in portToName then portToName[portNum] else "";
      portToName := portToName - {portNum};
      nameToPort := nameToPort - {name};
      return Ok(());
    }

    /** The handler registered at the port answers, in the current context; any other port is an error. */
    method ReceiveMessage(port: int, data: string) returns (r: Result<Reply, ServerError>)
      ensures r == if port in Abs().portToHandler then Ok(Abs().portToHandler[port](currentCtx, data)) else Err(UnregisteredPort)
    {
      if port !in portToHandler { return Err(UnregisteredPort); }
      return Ok(portToHandler[port](currentCtx, data));
    }
  }
}
