/** Discovery, from instruments.py: `get_gpib_adapters` and
    `list_connected_instruments` enumerate the bus, keep the resources whose
    name contains "GPIB", and open, identify and close each one, turning a
    failure of one resource into that resource's entry. The identification
    reply is the `*IDN?` response of section 10.14 of IEEE 488.2:
    manufacturer, model, serial number and firmware version separated by
    commas. */
module Discovery {
  import opened Wrappers
  import opened Visa
  import opened Text

  const Unknown: string := "Unknown"

  /** The resources the discovery loops look at: those whose name contains
      "GPIB", in enumeration order. */
  function GpibResources(resources: seq<string>): (r: seq<string>)
    ensures forall k :: 0 <= k < |r| ==> Contains(r[k], "GPIB")
  {
    if resources == [] then []
    else
      var last := resources[|resources| - 1];
      GpibResources(resources[..|resources| - 1]) + (if Contains(last, "GPIB") then [last] else [])
  }

  /** Each GPIB resource is kept as many times as it is enumerated, and no
      other resource is kept. */
  lemma {:induction false} GpibResourcesCount(resources: seq<string>, x: string)
    ensures multiset(GpibResources(resources))[x] == if Contains(x, "GPIB") then multiset(resources)[x] else 0
    decreases |resources|
  {
    if resources != [] {
      var init := resources[..|resources| - 1];
      var last := resources[|resources| - 1];
      assert resources == init + [last];
      GpibResourcesCount(init, x);
    }
  }

  /** Filtering commutes with concatenation, so the kept resources stay in
      enumeration order. */
  lemma {:induction false} GpibResourcesOfConcat(a: seq<string>, b: seq<string>)
    ensures GpibResources(a + b) == GpibResources(a) + GpibResources(b)
    decreases |b|
  {
    if b == [] {
      assert a + b == a;
    } else {
      var init, last := b[..|b| - 1], b[|b| - 1];
      var tail := if Contains(last, "GPIB") then [last] else [];
      GpibResourcesOfConcat(a, init);
      assert (a + b)[..|a + b| - 1] == a + init && (a + b)[|a + b| - 1] == last;
      assert GpibResources(a + b) == GpibResources(a + init) + tail;
      assert GpibResources(b) == GpibResources(init) + tail;
    }
  }

  // ---------------------------------------------------------------------
  // Identification parsing

  /** `idn.split(',')[1].strip() if ',' in idn else 'Unknown'`: the
      instrument type `get_gpib_adapters` reports. */
  function InstrumentType(idn: string): string
  {
    if Contains(idn, ",") then
      ContainsChar(idn, ',');
      Strip(Split(idn, ',')[1])
    else Unknown
  }

  /** A reply whose second comma-separated field is `b` has type `Strip(b)`. */
  lemma InstrumentTypeOfSecondField(idn: string, b: string)
    requires |Split(idn, ',')| >= 2 && Split(idn, ',')[1] == b
    ensures InstrumentType(idn) == Strip(b)
  {
    assert ',' in multiset(idn);
    ContainsChar(idn, ',');
  }

  /** The instrument type of a reply made of comma-free fields is its
      second field, stripped. */
  lemma InstrumentTypeOfFields(fields: seq<string>)
    requires |fields| >= 2
    requires forall k :: 0 <= k < |fields| ==> ',' !in fields[k]
    ensures InstrumentType(Join(fields, ',')) == Strip(fields[1])
  {
    SplitOfJoin(fields, ',');
    InstrumentTypeOfSecondField(Join(fields, ','), fields[1]);
  }

  /** A reply without a comma has type "Unknown". */
  lemma InstrumentTypeWithoutComma(idn: string)
    requires ',' !in idn
    ensures InstrumentType(idn) == "Unknown"
  {
    ContainsChar(idn, ',');
  }

  /** The four fields of an identification reply. */
  datatype IdnFields = IdnFields(manufacturer: string, model: string, serial: string, version: string)

  /** `manufacturer, model, serial, version = idn.split(',') if ',' in idn
      else (idn, 'Unknown', 'Unknown', 'Unknown')`, followed by stripping
      each field. The unpacking raises when a reply with a comma does not
      have exactly four fields; the error carries the field count. */
  function ParseIdn(idn: string): (r: Result<IdnFields, nat>)
    ensures r.Err? <==> ',' in idn && multiset(idn)[','] != 3
    ensures r.Err? ==> r.error == multiset(idn)[','] + 1
  {
    ContainsChar(idn, ',');
    if !Contains(idn, ",") then
      Ok(IdnFields(Strip(idn), Strip(Unknown), Strip(Unknown), Strip(Unknown)))
    else
      var parts := Split(idn, ',');
      if |parts| == 4 then
        Ok(IdnFields(Strip(parts[0]), Strip(parts[1]), Strip(parts[2]), Strip(parts[3])))
      else
        Err(|parts|)
  }

  /** A reply with no comma is all manufacturer; the other fields are
      "Unknown". */
  lemma ParseIdnWithoutComma(raw: string)
    requires ',' !in Strip(raw)
    ensures ParseIdn(Strip(raw)) == Ok(IdnFields(Strip(raw), "Unknown", "Unknown", "Unknown"))
  {
    StripIdempotent(raw);
    StripOfStripped(Unknown);
    ContainsChar(Strip(raw), ',');
  }

  /** A reply of four comma-free fields parses into those fields, each
      stripped. */
  lemma ParseIdnFourFields(fields: seq<string>)
    requires |fields| == 4
    requires forall k :: 0 <= k < 4 ==> ',' !in fields[k]
    ensures ParseIdn(Join(fields, ',')) ==
      Ok(IdnFields(Strip(fields[0]), Strip(fields[1]), Strip(fields[2]), Strip(fields[3])))
  {
    SplitOfJoin(fields, ',');
    ParseIdnOfSplit(Join(fields, ','), fields);
  }

  /** A reply that splits into four fields parses into them, stripped. */
  lemma ParseIdnOfSplit(idn: string, fields: seq<string>)
    requires Split(idn, ',') == fields && |fields| == 4
    ensures ParseIdn(idn) ==
      Ok(IdnFields(Strip(fields[0]), Strip(fields[1]), Strip(fields[2]), Strip(fields[3])))
  {
    assert ',' in multiset(idn);
    ContainsChar(idn, ',');
  }

  // ---------------------------------------------------------------------
  // get_gpib_adapters

  /** One entry of `get_gpib_adapters`' list. */
  datatype AdapterInfo =
    | Available(address: string, instrumentInfo: string, instrumentType: string)
    | AdapterError(address: string, error: string)

  /** The entry `get_gpib_adapters` makes for one resource: an error entry
      when the open or the close raises; otherwise an available entry with
      the stripped reply and its type, or "No response" when the query
      raises. */
  function AdapterEntry(address: string, probe: Probe): (e: AdapterInfo)
    ensures e.address == address
    ensures e.AdapterError? <==> probe.CannotOpen? || probe.close.Raised?
    ensures e.AdapterError? ==> e.error == if probe.CannotOpen? then probe.reason else probe.close.reason
    ensures e.Available? && probe.reply.Answered? ==>
      e.instrumentInfo == Strip(probe.reply.text) && e.instrumentType == InstrumentType(Strip(probe.reply.text))
    ensures e.Available? && probe.reply.QueryFailed? ==>
      e.instrumentInfo == "No response" && e.instrumentType == "Unknown"
  {
    match probe
    case CannotOpen(reason) => AdapterError(address, reason)
    case Session(reply, close) =>
      if close.Raised? then AdapterError(address, close.reason)
      else
        match reply
        case Answered(text) =>
          var idn := Strip(text);
          Available(address, idn, InstrumentType(idn))
        case QueryFailed(_) => Available(address, "No response", Unknown)
  }

  /** The list `get_gpib_adapters` builds from the enumerated resources. */
  function Adapters(resources: seq<string>, probe: string -> Probe): seq<AdapterInfo>
  {
    if resources == [] then []
    else
      var last := resources[|resources| - 1];
      Adapters(resources[..|resources| - 1], probe)
        + (if Contains(last, "GPIB") then [AdapterEntry(last, probe(last))] else [])
  }

  /** The adapters list has exactly one entry per GPIB resource, in
      enumeration order, each made from that resource's probe. */
  lemma {:induction false} AdaptersPerResource(resources: seq<string>, probe: string -> Probe)
    ensures |Adapters(resources, probe)| == |GpibResources(resources)|
    ensures forall k :: 0 <= k < |GpibResources(resources)| ==>
      Adapters(resources, probe)[k] == AdapterEntry(GpibResources(resources)[k], probe(GpibResources(resources)[k]))
    decreases |resources|
  {
    if resources != [] {
      AdaptersPerResource(resources[..|resources| - 1], probe);
    }
  }

  /** What `get_gpib_adapters` returns. */
  datatype AdapterReport = AdapterReport(success: bool, adapters: seq<AdapterInfo>, totalFound: nat, error: Option<string>)

  /** `get_gpib_adapters()`, given the enumeration `rm.list_resources('?*')`
      and how each resource answers. A failed enumeration gives the failure
      report; otherwise the loop appends one entry per GPIB resource. */
  method GetGpibAdapters(listing: Listing, probe: string -> Probe) returns (report: AdapterReport)
    ensures listing.ListingFailed? ==> report == AdapterReport(false, [], 0, Some(listing.reason))
    ensures listing.Listed? ==>
      && report.success && report.error == None
      && report.adapters == Adapters(listing.resources, probe)
      && report.totalFound == |report.adapters| == |GpibResources(listing.resources)|
  {
    if listing.ListingFailed? {
      return AdapterReport(false, [], 0, Some(listing.reason));
    }
    var resources := listing.resources;
    var adapters := [];
    var i := 0;
    while i < |resources|
      invariant 0 <= i <= |resources|
      invariant adapters == Adapters(resources[..i], probe)
    {
      var resource := resources[i];
      assert resources[..i + 1][..i] == resources[..i];
      if Contains(resource, "GPIB") {
        adapters := adapters + [AdapterEntry(resource, probe(resource))];
      }
      i := i + 1;
    }
    assert resources[..i] == resources;
    AdaptersPerResource(resources, probe);
    report := AdapterReport(true, adapters, |adapters|, None);
  }

  // ---------------------------------------------------------------------
  // list_connected_instruments

  /** Why a reachable instrument is reported `connected_no_response`: its
      query raised, or its reply did not unpack into four fields (the
      number of fields it had). */
  datatype NoResponseCause = QueryError(reason: string) | UnpackError(fields: nat)

  datatype InstrumentStatus =
    | Connected(fullIdn: string)
    | ConnectedNoResponse(cause: NoResponseCause)
    | AccessError(error: string)

  /** One entry of `list_connected_instruments`' list. */
  datatype InstrumentInfo = InstrumentInfo(
    address: string, manufacturer: string, model: string, serial: string, version: string,
    status: InstrumentStatus)

  function UnknownInstrument(address: string, status: InstrumentStatus): InstrumentInfo
  {
    InstrumentInfo(address, Unknown, Unknown, Unknown, Unknown, status)
  }

  /** The entry `list_connected_instruments` makes for one resource. */
  function InstrumentEntry(address: string, probe: Probe): (e: InstrumentInfo)
    ensures e.address == address
    ensures e.status.AccessError? <==> probe.CannotOpen? || probe.close.Raised?
    ensures e.status.Connected? <==>
      probe.Session? && probe.close.Done? && probe.reply.Answered? && ParseIdn(Strip(probe.reply.text)).Ok?
    ensures e.status.Connected? ==>
      && e.status.fullIdn == Strip(probe.reply.text)
      && ParseIdn(e.status.fullIdn) == Ok(IdnFields(e.manufacturer, e.model, e.serial, e.version))
    ensures !e.status.Connected? ==>
      e.manufacturer == e.model == e.serial == e.version == "Unknown"
  {
    match probe
    case CannotOpen(reason) => UnknownInstrument(address, AccessError(reason))
    case Session(reply, close) =>
      if close.Raised? then UnknownInstrument(address, AccessError(close.reason))
      else
        match reply
        case QueryFailed(reason) => UnknownInstrument(address, ConnectedNoResponse(QueryError(reason)))
        case Answered(text) =>
          var idn := Strip(text);
          match ParseIdn(idn)
          case Ok(f) => InstrumentInfo(address, f.manufacturer, f.model, f.serial, f.version, Connected(idn))
          case Err(n) => UnknownInstrument(address, ConnectedNoResponse(UnpackError(n)))
  }

  /** A reachable instrument whose reply has no comma is reported
      connected, with the whole reply as manufacturer and the other fields
      "Unknown". */
  lemma IdentifyWithoutComma(address: string, text: string)
    requires ',' !in Strip(text)
    ensures InstrumentEntry(address, Session(Answered(text), Done)) ==
      InstrumentInfo(address, Strip(text), "Unknown", "Unknown", "Unknown", Connected(Strip(text)))
  {
    ParseIdnWithoutComma(text);
  }

  /** A reachable instrument whose reply is four comma-separated fields is
      reported connected, with those fields stripped and the full reply. */
  lemma IdentifyFourFields(address: string, text: string, fields: seq<string>)
    requires |fields| == 4 && forall k :: 0 <= k < 4 ==> ',' !in fields[k]
    requires Strip(text) == Join(fields, ',')
    ensures InstrumentEntry(address, Session(Answered(text), Done)) ==
      InstrumentInfo(address, Strip(fields[0]), Strip(fields[1]), Strip(fields[2]), Strip(fields[3]),
                     Connected(Strip(text)))
  {
    var idn := Strip(text);
    ParseIdnFourFields(fields);
    assert ParseIdn(idn) ==
      Ok(IdnFields(Strip(fields[0]), Strip(fields[1]), Strip(fields[2]), Strip(fields[3])));
    AnsweredEntry(address, text);
  }

  /** The entry for a reachable instrument that answered is decided by
      parsing its stripped reply. */
  lemma AnsweredEntry(address: string, text: string)
    ensures InstrumentEntry(address, Session(Answered(text), Done)) ==
      match ParseIdn(Strip(text))
      case Ok(f) => InstrumentInfo(address, f.manufacturer, f.model, f.serial, f.version, Connected(Strip(text)))
      case Err(n) => UnknownInstrument(address, ConnectedNoResponse(UnpackError(n)))
  {
  }

  /** A reachable instrument whose reply has a comma but not exactly three
      is reported `connected_no_response`, every field "Unknown". */
  lemma IdentifyOtherFieldCount(address: string, text: string)
    requires ',' in Strip(text) && multiset(Strip(text))[','] != 3
    ensures InstrumentEntry(address, Session(Answered(text), Done)) ==
      UnknownInstrument(address, ConnectedNoResponse(UnpackError(multiset(Strip(text))[','] + 1)))
  {
  }

  /** The list `list_connected_instruments` builds from the enumerated
      resources. */
  function Instruments(resources: seq<string>, probe: string -> Probe): seq<InstrumentInfo>
  {
    if resources == [] then []
    else
      var last := resources[|resources| - 1];
      Instruments(resources[..|resources| - 1], probe)
        + (if Contains(last, "GPIB") then [InstrumentEntry(last, probe(last))] else [])
  }

  /** The instruments list has exactly one entry per GPIB resource, in
      enumeration order, each made from that resource's probe. */
  lemma {:induction false} InstrumentsPerResource(resources: seq<string>, probe: string -> Probe)
    ensures |Instruments(resources, probe)| == |GpibResources(resources)|
    ensures forall k :: 0 <= k < |GpibResources(resources)| ==>
      Instruments(resources, probe)[k] == InstrumentEntry(GpibResources(resources)[k], probe(GpibResources(resources)[k]))
    decreases |resources|
  {
    if resources != [] {
      InstrumentsPerResource(resources[..|resources| - 1], probe);
    }
  }

  /** What `list_connected_instruments` returns. */
  datatype InstrumentReport = InstrumentReport(
    success: bool, instruments: seq<InstrumentInfo>, totalConnected: nat, error: Option<string>)

  /** `list_connected_instruments()`, given the enumeration
      `rm.list_resources()` and how each resource answers. */
  method ListConnectedInstruments(listing: Listing, probe: string -> Probe) returns (report: InstrumentReport)
    ensures listing.ListingFailed? ==> report == InstrumentReport(false, [], 0, Some(listing.reason))
    ensures listing.Listed? ==>
      && report.success && report.error == None
      && report.instruments == Instruments(listing.resources, probe)
      && report.totalConnected == |report.instruments| == |GpibResources(listing.resources)|
  {
    if listing.ListingFailed? {
      return InstrumentReport(false, [], 0, Some(listing.reason));
    }
    var resources := listing.resources;
    var instruments := [];
    var i := 0;
    while i < |resources|
      invariant 0 <= i <= |resources|
      invariant instruments == Instruments(resources[..i], probe)
    {
      var resource := resources[i];
      assert resources[..i + 1][..i] == resources[..i];
      if Contains(resource, "GPIB") {
        instruments := instruments + [InstrumentEntry(resource, probe(resource))];
      }
      i := i + 1;
    }
    assert resources[..i] == resources;
    InstrumentsPerResource(resources, probe);
    report := InstrumentReport(true, instruments, |instruments|, None);
  }
}
