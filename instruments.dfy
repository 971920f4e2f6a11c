/** The instrument registry of instruments.py (`open_instruments`, the dict
    from address to open handle), the connection test, and the system-info
    snapshot. Discovery, from the same file, is in module Discovery. */
module Instruments {
  import opened Wrappers
  import opened Visa
  import opened Text

  /** The timeout, in milliseconds, `get_instrument` gives a handle it opens. */
  const RegistryTimeout: int := 10000

  /** An open instrument: the library session and its timeout setting. */
  datatype Handle = Handle(session: nat, timeout: int)

  /** The exceptions the registry and the endpoints pass on: the one
      `get_instrument` raises when the open fails, or a library exception
      raised by a query, a write or a close. */
  datatype Failure =
    | ConnectFailed(address: string, reason: string)
    | LibraryError(reason: string)

  /** No address appears twice. */
  ghost predicate Distinct(s: seq<string>)
  {
    forall i, j :: 0 <= i < j < |s| ==> s[i] != s[j]
  }

  /** `s` without its occurrences of `x`, order kept. */
  function Without(s: seq<string>, x: string): (r: seq<string>)
    ensures forall a :: a in r <==> a in s && a != x
    ensures Distinct(s) ==> Distinct(r)
    ensures x !in s ==> r == s
  {
    if s == [] then []
    else
      var rest := Without(s[1..], x);
      assert forall a :: a in s <==> a == s[0] || a in s[1..];
      assert Distinct(s) ==> Distinct(s[1..]) && s[0] !in s[1..];
      if s[0] == x then rest else [s[0]] + rest
  }

  /** A sequence without repetitions has as many distinct elements as it
      has elements. */
  lemma {:induction false} DistinctCardinality(s: seq<string>)
    requires Distinct(s)
    ensures |set a | a in s| == |s|
  {
    if s != [] {
      var tail := s[1..];
      DistinctCardinality(tail);
      assert (set a | a in s) == {s[0]} + (set a | a in tail);
      assert s[0] !in tail;
    }
  }

  /** The errors `close_all_instruments` logs when it closes the handles
      of `addresses` in order: each address whose close raised, with the
      exception, in the order the closes were attempted. */
  function CloseErrors(addresses: seq<string>, closing: string -> Outcome): (errors: seq<(string, string)>)
    ensures |errors| <= |addresses|
    ensures forall k :: 0 <= k < |errors| ==>
      errors[k].0 in addresses && closing(errors[k].0) == Raised(errors[k].1)
    ensures forall a :: a in addresses && closing(a).Raised? ==> (a, closing(a).reason) in errors
  {
    if addresses == [] then []
    else
      var last := addresses[|addresses| - 1];
      var init := addresses[..|addresses| - 1];
      assert forall a :: a in init ==> a in addresses;
      CloseErrors(init, closing)
        + (if closing(last).Raised? then [(last, closing(last).reason)] else [])
  }

  /** What `get_instrument(address)` returns or raises, given the registry
      table and the outcome its open would have: the stored handle when the
      address is registered, else the new handle with a 10-second timeout,
      else the connection failure. */
  function GetOutcome(handles: map<string, Handle>, address: string, opening: OpenOutcome): (r: Result<Handle, Failure>)
    ensures address in handles ==> r == Ok(handles[address])
    ensures r.Err? <==> address !in handles && opening.OpenFailed?
    ensures r.Err? ==> r.error == ConnectFailed(address, opening.reason)
    ensures r.Ok? && address !in handles ==> r.value.timeout == RegistryTimeout && r.value.session == opening.session
  {
    if address in handles then Ok(handles[address])
    else match opening
      case Opened(session) => Ok(Handle(session, RegistryTimeout))
      case OpenFailed(reason) => Err(ConnectFailed(address, reason))
  }

  /** The registry `(handles, order)` is what `get_instrument(address)`
      leaves behind when it started from `(handles0, order0)`: the returned
      handle stored under `address` (newly appended to the key order if it
      was absent), or nothing changed when it raised. */
  ghost predicate GetEffect(
    handles0: map<string, Handle>, order0: seq<string>,
    handles: map<string, Handle>, order: seq<string>,
    address: string, opening: OpenOutcome)
  {
    var g := GetOutcome(handles0, address, opening);
    && handles == (if g.Ok? then handles0[address := g.value] else handles0)
    && order == (if g.Ok? && address !in handles0 then order0 + [address] else order0)
  }

  /** The registry's introspection, as `get_system_info` reports it. */
  datatype RegistrySnapshot = RegistrySnapshot(openConnections: nat, openAddresses: seq<string>)

  /** The global `open_instruments`. Python dicts keep insertion order,
      which `close_all_instruments` and `get_system_info` expose, so the
      registry keeps the order of its keys beside the map. */
  class Registry {
    var handles: map<string, Handle>
    var order: seq<string>

    ghost predicate Valid()
      reads this
    {
      && Distinct(order)
      && (forall a :: a in order ==> a in handles)
      && (forall a :: a in handles ==> a in order)
    }

    /** The registry at import time: empty. */
    constructor ()
      ensures Valid() && handles == map[] && order == []
    {
      handles := map[];
      order := [];
    }

    /** `get_instrument(address)`: the stored handle when the address is
        registered; otherwise the result of opening it, stored with a
        10-second timeout. A failed open raises, and the address is then
        not registered. */
    method GetInstrument(address: string, opening: OpenOutcome) returns (r: Result<Handle, Failure>)
      requires Valid()
      modifies this
      ensures Valid()
      ensures r == GetOutcome(old(handles), address, opening)
      ensures GetEffect(old(handles), old(order), handles, order, address, opening)
      ensures address in old(handles) ==>
        r == Ok(old(handles)[address]) && handles == old(handles) && order == old(order)
      ensures address !in old(handles) && opening.Opened? ==>
        && r == Ok(Handle(opening.session, RegistryTimeout))
        && handles == old(handles)[address := r.value]
        && order == old(order) + [address]
      ensures address !in old(handles) && opening.OpenFailed? ==>
        && r == Err(ConnectFailed(address, opening.reason))
        && handles == old(handles) && order == old(order)
    {
      if address !in handles {
        match opening
        case OpenFailed(reason) =>
          return Err(ConnectFailed(address, reason));
        case Opened(session) =>
          var instr := Handle(session, RegistryTimeout);
          handles := handles[address := instr];
          order := order + [address];
      }
      r := Ok(handles[address]);
    }

    /** `del open_instruments[address]`: drops that entry only. */
    method Delete(address: string)
      requires Valid() && address in handles
      modifies this
      ensures Valid()
      ensures handles == old(handles) - {address}
      ensures order == Without(old(order), address)
    {
      handles := handles - {address};
      order := Without(order, address);
    }

    /** `close_all_instruments()`: calls `close` on every registered handle
        in insertion order, logs each close that raises and carries on,
        then empties the registry, whatever the closes did. Returns the
        handles closed, in order, and the logged errors. */
    method CloseAll(closing: string -> Outcome) returns (closed: seq<Handle>, errors: seq<(string, string)>)
      requires Valid()
      modifies this
      ensures Valid() && handles == map[] && order == []
      ensures |closed| == |old(order)|
      ensures forall k :: 0 <= k < |closed| ==> closed[k] == old(handles)[old(order)[k]]
      ensures errors == CloseErrors(old(order), closing)
    {
      var addresses, table := order, handles;
      closed, errors := [], [];
      var i := 0;
      while i < |addresses|
        invariant 0 <= i <= |addresses|
        invariant |closed| == i
        invariant forall k :: 0 <= k < i ==> closed[k] == table[addresses[k]]
        invariant errors == CloseErrors(addresses[..i], closing)
      {
        var address := addresses[i];
        closed := closed + [table[address]];
        var logged := [];
        match closing(address) {
          case Raised(reason) => logged := [(address, reason)];
          case Done =>
        }
        assert addresses[..i + 1][..i] == addresses[..i];
        assert CloseErrors(addresses[..i + 1], closing) == CloseErrors(addresses[..i], closing) + logged;
        errors := errors + logged;
        i := i + 1;
      }
      assert addresses[..i] == addresses;
      handles := map[];
      order := [];
    }

    /** The registry part of `get_system_info`: how many handles are open
        and their addresses, each once, in insertion order. */
    function Snapshot(): (s: RegistrySnapshot)
      reads this
      requires Valid()
      ensures s.openAddresses == order
      ensures s.openConnections == |s.openAddresses| == |handles|
      ensures forall a :: a in s.openAddresses <==> a in handles
      ensures Distinct(s.openAddresses)
    {
      assert handles.Keys == set a | a in order;
      DistinctCardinality(order);
      RegistrySnapshot(|handles|, order)
    }
  }

  /** What `get_system_info` returns. */
  datatype SystemInfo =
    | SystemInfo(backend: string, version: string, availableResources: seq<string>, registry: RegistrySnapshot)
    | SystemInfoFailed(error: string)

  /** `get_system_info()`, given the backend's description and the result
      of listing the resources: a read-only report on the registry, or the
      listing failure. */
  function GetSystemInfo(reg: Registry, backend: string, listing: Listing): (info: SystemInfo)
    reads reg
    requires reg.Valid()
    ensures listing.ListingFailed? <==> info.SystemInfoFailed?
    ensures info.SystemInfoFailed? ==> info.error == listing.reason
    ensures info.SystemInfo? ==>
      && info.backend == backend
      && info.availableResources == listing.resources
      && info.registry.openAddresses == reg.order
      && info.version == "PyVISA"
      && info.registry.openConnections == |reg.handles|
      && (forall a :: a in info.registry.openAddresses <==> a in reg.handles)
  {
    match listing
    case ListingFailed(reason) => SystemInfoFailed(reason)
    case Listed(resources) => SystemInfo(backend, "PyVISA", resources, reg.Snapshot())
  }

  /** The status `test_instrument_connection` reports. */
  datatype TestStatus =
    | Connected(response: string)
    | NoResponse(reason: string)
    | ConnectionFailed(reason: string)

  /** The result of `test_instrument_connection`, with the number of
      `close` calls it made on the handle it opened. */
  datatype ConnectionTest = ConnectionTest(address: string, status: TestStatus, closeCalls: nat)
  {
    /** The `success` field of the reply. */
    predicate Success() { status.Connected? }
  }

  /** `test_instrument_connection(address)`: opens its own handle (with a
      5-second timeout), asks `*IDN?` and closes the handle, never touching
      the registry. A handle's close is taken to behave the same each time
      it is called: a close that raises after a good reply is retried by
      the inner handler, raises again, and reaches the outer handler. */
  function TestInstrumentConnection(address: string, probe: Probe): (r: ConnectionTest)
    ensures r.address == address
    ensures r.Success() <==> probe.Session? && probe.reply.Answered? && probe.close.Done?
    ensures r.Success() ==> r.status.response == Strip(probe.reply.text)
    ensures r.status.NoResponse? <==> probe.Session? && probe.reply.QueryFailed? && probe.close.Done?
    ensures r.status.NoResponse? ==> r.status.reason == probe.reply.reason
    ensures probe.CannotOpen? ==> r.status == ConnectionFailed(probe.reason) && r.closeCalls == 0
    ensures probe.Session? ==> 1 <= r.closeCalls <= 2
    ensures probe.Session? && probe.close.Raised? ==> r.status == ConnectionFailed(probe.close.reason)
  {
    match probe
    case CannotOpen(reason) => ConnectionTest(address, ConnectionFailed(reason), 0)
    case Session(reply, close) =>
      match (reply, close)
      case (Answered(text), Done) => ConnectionTest(address, Connected(Strip(text)), 1)
      case (Answered(_), Raised(e)) => ConnectionTest(address, ConnectionFailed(e), 2)
      case (QueryFailed(q), Done) => ConnectionTest(address, NoResponse(q), 1)
      case (QueryFailed(_), Raised(e)) => ConnectionTest(address, ConnectionFailed(e), 1)
  }
}
