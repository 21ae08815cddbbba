/**
 * The domain service's decisions about the primary hosted zone. Creating
 * returns the stored zone when the state already tracks a primary one;
 * otherwise it asks for the domain, creates the zone, asks whether the
 * name servers were delegated, and saves the zone to the store and the
 * state before reporting. Deleting picks the primary zone from the state;
 * a zone the program manages is deleted through the API and removed from
 * the store, and every zone is then removed from the state and reported.
 *
 * The API, store, state, report and prompt collaborators are not modelled:
 * each call on them is recorded, whether it fails is an input, and so are
 * the values they answer with. Each run stops at the first call that fails
 * and returns that call's error.
 */
module DomainService {
  import opened Api

  /** A hosted zone as the state lists it. */
  datatype ZoneRecord = ZoneRecord(domain: string, primary: bool, managed: bool)

  /** The zone value passed to and returned by the service. */
  datatype ClientZone = ClientZone(domain: string, fqdn: string, nameServers: seq<string>, isDelegated: bool)

  /** The options of a create call. */
  datatype CreateOpts = CreateOpts(id: ID, domain: string, fqdn: string)

  /** A report returned by a store or state call: the call that produced it. */
  datatype Report = Report(source: Call)

  /** One call on a collaborator, with its arguments. */
  datatype Call =
    | ApiDeletePrimaryHostedZone(domain: string, id: ID)
    | StoreRemoveHostedZone(domain: string)
    | StateRemoveHostedZone(domain: string)
    | ReportDeletePrimaryHostedZone(reports: seq<Report>)
    | StoreGetHostedZone(domain: string)
    | AskDomain(repository: string, environment: string)
    | ApiCreatePrimaryHostedZone(opts: CreateOpts)
    | AskConfirmPostingNameServers(domain: string, nameServers: seq<string>)
    | StoreSaveHostedZone(zone: ClientZone)
    | StateSaveHostedZone(zone: ClientZone)
    | ReportCreatePrimaryHostedZone(zone: ClientZone, reports: seq<Report>)

  /** The error a failed call returned, passed on unchanged. */
  datatype DomainError = CallFailed(call: Call)

  /** The calls made and the error returned. */
  datatype Run = Run(calls: seq<Call>, err: Option<DomainError>)

  /** The domain and FQDN the user answers with. */
  datatype AskedDomain = AskedDomain(domain: string, fqdn: string)

  /** What the collaborators answer: which calls fail, and the values the others return. */
  datatype Replies = Replies(fails: Call -> bool, stored: string -> ClientZone, asked: AskedDomain,
                             created: CreateOpts -> ClientZone, delegated: bool)

  /**
   * Running `plan` in order, stopping at the first call that fails: the
   * calls made are a prefix of the plan that ends with the failing call,
   * and the error is that call's; with no failure the whole plan runs.
   */
  function RunPlan(plan: seq<Call>, fails: Call -> bool): (r: Run)
    ensures r.calls <= plan
    ensures r.err.None? <==> forall k | 0 <= k < |plan| :: !fails(plan[k])
    ensures r.err.None? ==> r.calls == plan
    ensures r.err.Some? ==> r.calls != [] && r.err.value == CallFailed(r.calls[|r.calls| - 1]) &&
                            fails(r.calls[|r.calls| - 1]) &&
                            forall k | 0 <= k < |r.calls| - 1 :: !fails(r.calls[k])
  {
    if plan == [] then Run([], None)
    else if fails(plan[0]) then Run([plan[0]], Some(CallFailed(plan[0])))
    else
      var rest := RunPlan(plan[1..], fails);
      assert forall k | 1 <= k < |plan| :: plan[k] == plan[1..][k - 1];
      Run([plan[0]] + rest.calls, rest.err)
  }

  /** Running a plan with a first call `c` that succeeds: `c`, then the rest of the plan. */
  lemma RunFirst(c: Call, rest: seq<Call>, fails: Call -> bool)
    requires !fails(c)
    ensures RunPlan([c] + rest, fails) == Run([c] + RunPlan(rest, fails).calls, RunPlan(rest, fails).err)
  {
    assert ([c] + rest)[1..] == rest;
  }

  /** A run whose first failing call is the `k`-th makes the calls up to and including it. */
  lemma RunStopsAt(plan: seq<Call>, k: nat, fails: Call -> bool)
    requires k < |plan| && fails(plan[k]) && forall j | 0 <= j < k :: !fails(plan[j])
    ensures RunPlan(plan, fails) == Run(plan[..k + 1], Some(CallFailed(plan[k])))
  {
    var r := RunPlan(plan, fails);
    assert r.err.Some?;
    var m := |r.calls| - 1;
    assert r.calls[m] == plan[m];
    assert k < |r.calls| ==> r.calls[k] == plan[k];
  }

  // ---------------------------------------------------------------------
  // Deleting the primary hosted zone
  // ---------------------------------------------------------------------

  /** The zero value of a zone record, which the shared loop variable holds before the first iteration. */
  const NoZone := ZoneRecord("", false, false)

  /** The loop variable of the search for the primary zone, as a location whose address can be taken. */
  class ZoneVariable {
    var zone: ZoneRecord

    constructor (z: ZoneRecord)
      ensures zone == z
    {
      zone := z;
    }
  }

  /** The index of the last primary zone of `zones`, if any. */
  function LastPrimary(zones: seq<ZoneRecord>): (k: Option<nat>)
    ensures k.None? <==> forall j | 0 <= j < |zones| :: !zones[j].primary
    ensures k.Some? ==> k.value < |zones| && zones[k.value].primary &&
                        forall j | k.value < j < |zones| :: !zones[j].primary
  {
    if zones == [] then None
    else if zones[|zones| - 1].primary then Some(|zones| - 1)
    else LastPrimary(zones[..|zones| - 1])
  }

  /**
   * The zone the search settles on. With a fresh loop variable per
   * iteration (Go 1.22 and later) it is the last primary zone; with one
   * loop variable shared by all iterations (earlier Go), the reference taken
   * to it sees the last zone of the list, primary or not.
   */
  function ChosenZone(zones: seq<ZoneRecord>, sharedLoopVariable: bool): (hz: Option<ZoneRecord>)
    ensures hz.None? <==> forall j | 0 <= j < |zones| :: !zones[j].primary
  {
    match LastPrimary(zones)
    case None => None
    case Some(k) => if sharedLoopVariable then Some(zones[|zones| - 1]) else Some(zones[k])
  }

  /**
   * The loop of `DeletePrimaryHostedZone`: remembers a reference to the loop
   * variable whenever it holds a primary zone, and reads through it at the
   * end.
   */
  method FindPrimaryZone(zones: seq<ZoneRecord>, sharedLoopVariable: bool) returns (hz: Option<ZoneRecord>)
    ensures hz == ChosenZone(zones, sharedLoopVariable)
  {
    var z := new ZoneVariable(NoZone);
    var primaryRef: ZoneVariable? := null;
    for i := 0 to |zones|
      invariant fresh(z) && (primaryRef != null ==> fresh(primaryRef))
      invariant i > 0 ==> z.zone == zones[i - 1]
      invariant primaryRef == null <==> LastPrimary(zones[..i]).None?
      invariant primaryRef != null && sharedLoopVariable ==> primaryRef == z
      invariant primaryRef != null && !sharedLoopVariable ==> primaryRef.zone == zones[LastPrimary(zones[..i]).value]
    {
      assert zones[..i + 1][..i] == zones[..i];
      if sharedLoopVariable {
        z.zone := zones[i];
      } else {
        z := new ZoneVariable(zones[i]);
      }
      if z.zone.primary {
        primaryRef := z;
      }
    }
    assert zones[..|zones|] == zones;
    if primaryRef == null {
      hz := None;
    } else {
      hz := Some(primaryRef.zone);
    }
  }

  /** The calls deleting `hz` takes: the API delete and store removal for a managed zone, then the state removal and the report. */
  function DeletePlan(hz: ZoneRecord, id: ID): seq<Call> {
    var managed := if hz.managed then [ApiDeletePrimaryHostedZone(hz.domain, id), StoreRemoveHostedZone(hz.domain)] else [];
    var storeReports := if hz.managed then [Report(StoreRemoveHostedZone(hz.domain))] else [];
    managed + [StateRemoveHostedZone(hz.domain), ReportDeletePrimaryHostedZone([Report(StateRemoveHostedZone(hz.domain))] + storeReports)]
  }

  /**
   * Deletes the primary hosted zone. Without a primary zone in the state
   * nothing is called and no error is returned; otherwise the calls made
   * and the error are those of running `DeletePlan` for the zone chosen.
   */
  method DeletePrimaryHostedZone(zones: seq<ZoneRecord>, id: ID, fails: Call -> bool, sharedLoopVariable: bool)
    returns (err: Option<DomainError>, calls: seq<Call>)
    ensures ChosenZone(zones, sharedLoopVariable).None? ==> err.None? && calls == []
    ensures ChosenZone(zones, sharedLoopVariable).Some? ==>
      Run(calls, err) == RunPlan(DeletePlan(ChosenZone(zones, sharedLoopVariable).value, id), fails)
  {
    var hz := FindPrimaryZone(zones, sharedLoopVariable);
    calls := [];
    if hz.None? {
      return None, calls;
    }
    err, calls := DeleteZone(hz.value, id, fails);
  }

  /** The part of `DeletePrimaryHostedZone` after a zone was chosen. */
  method DeleteZone(zone: ZoneRecord, id: ID, fails: Call -> bool) returns (err: Option<DomainError>, calls: seq<Call>)
    ensures Run(calls, err) == RunPlan(DeletePlan(zone, id), fails)
  {
    calls := [];
    ghost var plan := DeletePlan(zone, id);
    var reports: seq<Report> := [];
    if zone.managed {
      var call := ApiDeletePrimaryHostedZone(zone.domain, id);
      calls := calls + [call];
      if fails(call) {
        RunStopsAt(plan, 0, fails);
        return Some(CallFailed(call)), calls;
      }
      call := StoreRemoveHostedZone(zone.domain);
      calls := calls + [call];
      if fails(call) {
        RunStopsAt(plan, 1, fails);
        return Some(CallFailed(call)), calls;
      }
      reports := reports + [Report(call)];
    }
    assert calls == plan[..|calls|];
    assert reports == if zone.managed then [Report(StoreRemoveHostedZone(zone.domain))] else [];
    var removal := StateRemoveHostedZone(zone.domain);
    calls := calls + [removal];
    if fails(removal) {
      RunStopsAt(plan, |calls| - 1, fails);
      return Some(CallFailed(removal)), calls;
    }
    var report := ReportDeletePrimaryHostedZone([Report(removal)] + reports);
    calls := calls + [report];
    assert calls == plan;
    if fails(report) {
      RunStopsAt(plan, |calls| - 1, fails);
      return Some(CallFailed(report)), calls;
    }
    err := None;
  }

  /** A zone the program does not manage is never deleted through the API nor removed from the store. */
  lemma UnmanagedZoneKeptOutside(hz: ZoneRecord, id: ID, fails: Call -> bool)
    requires !hz.managed
    ensures forall c | c in RunPlan(DeletePlan(hz, id), fails).calls ::
      !c.ApiDeletePrimaryHostedZone? && !c.StoreRemoveHostedZone?
  {
  }

  /**
   * A managed zone is deleted through the API before it is removed from
   * the store, and both come before the state removal.
   */
  lemma ManagedZoneOrder(hz: ZoneRecord, id: ID, fails: Call -> bool)
    requires hz.managed
    ensures var calls := RunPlan(DeletePlan(hz, id), fails).calls;
      forall i, j | 0 <= i < j < |calls| ::
        (calls[j].ApiDeletePrimaryHostedZone? ==> false) &&
        (calls[j].StoreRemoveHostedZone? ==> calls[i].ApiDeletePrimaryHostedZone?) &&
        (calls[i].StateRemoveHostedZone? ==> calls[j].ReportDeletePrimaryHostedZone?)
  {
    var plan := DeletePlan(hz, id);
    var calls := RunPlan(plan, fails).calls;
    assert calls == plan[..|calls|];
    assert plan[0].ApiDeletePrimaryHostedZone? && plan[1].StoreRemoveHostedZone? && plan[2].StateRemoveHostedZone?;
    assert |plan| == 4 && plan[3].ReportDeletePrimaryHostedZone?;
  }

  /** The delete report, when it is made, receives the state's report first and then the store's. */
  lemma DeleteReportOrder(hz: ZoneRecord, id: ID, fails: Call -> bool, c: Call)
    requires c in RunPlan(DeletePlan(hz, id), fails).calls && c.ReportDeletePrimaryHostedZone?
    ensures c.reports == [Report(StateRemoveHostedZone(hz.domain))] +
                         if hz.managed then [Report(StoreRemoveHostedZone(hz.domain))] else []
  {
  }

  /** Every call of a delete that found a primary zone is about the chosen zone's domain. */
  lemma DeleteTouchesOnlyChosen(hz: ZoneRecord, id: ID, fails: Call -> bool, c: Call)
    requires c in RunPlan(DeletePlan(hz, id), fails).calls && !c.ReportDeletePrimaryHostedZone?
    ensures c.domain == hz.domain
  {
  }

  /**
   * With a shared loop variable the search can settle on a zone that is
   * not primary: the primary zone is followed by a zone it does not
   * manage, and the delete then removes that other zone from the state.
   */
  lemma SharedLoopVariableDeletesWrongZone(id: ID)
    ensures var zones := [ZoneRecord("primary.example", true, true), ZoneRecord("other.example", false, false)];
      var hz := ChosenZone(zones, true);
      hz == Some(zones[1]) && !hz.value.primary &&
      RunPlan(DeletePlan(hz.value, id), _ => false).calls[0] == StateRemoveHostedZone("other.example")
  {
    var zones := [ZoneRecord("primary.example", true, true), ZoneRecord("other.example", false, false)];
    assert LastPrimary(zones) == Some(0) by {
      assert zones[..1] == [zones[0]];
    }
  }

  /** With a loop variable per iteration the search settles on a primary zone, the last one listed. */
  lemma FreshLoopVariableChoosesPrimary(zones: seq<ZoneRecord>)
    requires exists j | 0 <= j < |zones| :: zones[j].primary
    ensures ChosenZone(zones, false).Some? && ChosenZone(zones, false).value.primary
    ensures exists k | 0 <= k < |zones| :: ChosenZone(zones, false) == Some(zones[k]) &&
                                          forall j | k < j < |zones| :: !zones[j].primary
  {
    var k := LastPrimary(zones).value;
    assert ChosenZone(zones, false) == Some(zones[k]);
  }

  /** Either way, the zone chosen is one of the state's zones. */
  lemma ChosenZoneListed(zones: seq<ZoneRecord>, sharedLoopVariable: bool)
    requires ChosenZone(zones, sharedLoopVariable).Some?
    ensures ChosenZone(zones, sharedLoopVariable).value in zones
  {
  }

  // ---------------------------------------------------------------------
  // Creating the primary hosted zone
  // ---------------------------------------------------------------------

  /** The index of the first primary zone of `zones`, if any. */
  function FirstPrimary(zones: seq<ZoneRecord>): (k: Option<nat>)
    ensures k.None? <==> forall j | 0 <= j < |zones| :: !zones[j].primary
    ensures k.Some? ==> k.value < |zones| && zones[k.value].primary && forall j | 0 <= j < k.value :: !zones[j].primary
  {
    if zones == [] then None
    else if zones[0].primary then Some(0)
    else match FirstPrimary(zones[1..])
      case None => None
      case Some(k) => Some(k + 1)
  }

  /** The options the API create call receives: the caller's identity with the asked domain and FQDN. */
  function ApiOpts(opts: CreateOpts, r: Replies): CreateOpts {
    opts.(domain := r.asked.domain, fqdn := r.asked.fqdn)
  }

  /** The zone saved and returned: the created zone, marked delegated as the user confirmed. */
  function SavedZone(opts: CreateOpts, r: Replies): ClientZone {
    r.created(ApiOpts(opts, r)).(isDelegated := r.delegated)
  }

  /** The calls creating a new primary zone takes, in order. */
  function CreatePlan(opts: CreateOpts, r: Replies): seq<Call> {
    var created := r.created(ApiOpts(opts, r));
    var zone := SavedZone(opts, r);
    [AskDomain(opts.id.repository, opts.id.environment),
     ApiCreatePrimaryHostedZone(ApiOpts(opts, r)),
     AskConfirmPostingNameServers(created.domain, created.nameServers),
     StoreSaveHostedZone(zone),
     StateSaveHostedZone(zone),
     ReportCreatePrimaryHostedZone(zone, [Report(StoreSaveHostedZone(zone)), Report(StateSaveHostedZone(zone))])]
  }

  /**
   * Creates the primary hosted zone. When the state already lists a
   * primary zone, the store's zone for the first one's domain is returned
   * and nothing else is called; otherwise the calls and the error are
   * those of running `CreatePlan`, and on success the saved zone is
   * returned.
   */
  method CreatePrimaryHostedZone(zones: seq<ZoneRecord>, opts: CreateOpts, r: Replies)
    returns (zone: Option<ClientZone>, err: Option<DomainError>, calls: seq<Call>)
    ensures FirstPrimary(zones).Some? ==>
      var lookup := StoreGetHostedZone(zones[FirstPrimary(zones).value].domain);
      calls == [lookup] &&
      (if r.fails(lookup) then zone.None? && err == Some(CallFailed(lookup))
       else zone == Some(r.stored(lookup.domain)) && err.None?)
    ensures FirstPrimary(zones).None? ==>
      Run(calls, err) == RunPlan(CreatePlan(opts, r), r.fails) &&
      zone == (if err.None? then Some(SavedZone(opts, r)) else None)
  {
    for i := 0 to |zones|
      invariant forall j | 0 <= j < i :: !zones[j].primary
    {
      if zones[i].primary {
        var lookup := StoreGetHostedZone(zones[i].domain);
        if r.fails(lookup) {
          return None, Some(CallFailed(lookup)), [lookup];
        }
        return Some(r.stored(zones[i].domain)), None, [lookup];
      }
    }
    zone, err, calls := CreateNewZone(opts, r);
  }

  /** The part of `CreatePrimaryHostedZone` after the state turned out to list no primary zone. */
  method CreateNewZone(opts: CreateOpts, r: Replies) returns (zone: Option<ClientZone>, err: Option<DomainError>, calls: seq<Call>)
    ensures Run(calls, err) == RunPlan(CreatePlan(opts, r), r.fails)
    ensures zone == (if err.None? then Some(SavedZone(opts, r)) else None)
  {
    ghost var plan := CreatePlan(opts, r);
    calls := [];

    var ask := AskDomain(opts.id.repository, opts.id.environment);
    calls := calls + [ask];
    assert calls == plan[..1];
    if r.fails(ask) {
      RunStopsAt(plan, 0, r.fails);
      return None, Some(CallFailed(ask)), calls;
    }
    var d := r.asked;
    var apiOpts := opts.(domain := d.domain, fqdn := d.fqdn);

    var create := ApiCreatePrimaryHostedZone(apiOpts);
    calls := calls + [create];
    assert calls == plan[..2];
    if r.fails(create) {
      RunStopsAt(plan, 1, r.fails);
      return None, Some(CallFailed(create)), calls;
    }
    var created := r.created(apiOpts);

    var confirm := AskConfirmPostingNameServers(created.domain, created.nameServers);
    calls := calls + [confirm];
    assert calls == plan[..3];
    if r.fails(confirm) {
      RunStopsAt(plan, 2, r.fails);
      return None, Some(CallFailed(confirm)), calls;
    }
    var saved := created.(isDelegated := r.delegated);

    var toStore := StoreSaveHostedZone(saved);
    calls := calls + [toStore];
    assert calls == plan[..4];
    if r.fails(toStore) {
      RunStopsAt(plan, 3, r.fails);
      return None, Some(CallFailed(toStore)), calls;
    }

    var toState := StateSaveHostedZone(saved);
    calls := calls + [toState];
    assert calls == plan[..5];
    if r.fails(toState) {
      RunStopsAt(plan, 4, r.fails);
      return None, Some(CallFailed(toState)), calls;
    }

    var report := ReportCreatePrimaryHostedZone(saved, [Report(toStore), Report(toState)]);
    calls := calls + [report];
    assert calls == plan;
    if r.fails(report) {
      RunStopsAt(plan, 5, r.fails);
      return None, Some(CallFailed(report)), calls;
    }
    zone, err := Some(saved), None;
  }

  /**
   * The API create call receives the domain and FQDN the user answered
   * with, whatever the caller passed in, and the caller's identity.
   */
  lemma CreateUsesAskedDomain(opts: CreateOpts, r: Replies, c: Call)
    requires c in RunPlan(CreatePlan(opts, r), r.fails).calls && c.ApiCreatePrimaryHostedZone?
    ensures c.opts.domain == r.asked.domain && c.opts.fqdn == r.asked.fqdn && c.opts.id == opts.id
  {
  }

  /**
   * The zone is saved to the store before the state, both times marked
   * delegated exactly as the user confirmed, and the report lists the
   * store's report before the state's.
   */
  lemma CreateSavesInOrder(opts: CreateOpts, r: Replies)
    ensures var calls := RunPlan(CreatePlan(opts, r), r.fails).calls;
      forall j | 0 <= j < |calls| && calls[j].StateSaveHostedZone? ::
        0 < j && calls[j - 1] == StoreSaveHostedZone(calls[j].zone) && calls[j].zone.isDelegated == r.delegated
    ensures var calls := RunPlan(CreatePlan(opts, r), r.fails).calls;
      forall c | c in calls && c.ReportCreatePrimaryHostedZone? ::
        c.reports == [Report(StoreSaveHostedZone(c.zone)), Report(StateSaveHostedZone(c.zone))]
  {
    var plan := CreatePlan(opts, r);
    var calls := RunPlan(plan, r.fails).calls;
    assert calls == plan[..|calls|];
  }

  /** Nothing is saved unless the user was asked about the name servers first and answered. */
  lemma CreateSavesOnlyAfterConfirming(opts: CreateOpts, r: Replies)
    ensures var calls := RunPlan(CreatePlan(opts, r), r.fails).calls;
      forall j | 0 <= j < |calls| && (calls[j].StoreSaveHostedZone? || calls[j].StateSaveHostedZone?) ::
        calls[2].AskConfirmPostingNameServers? && !r.fails(calls[2])
  {
    var plan := CreatePlan(opts, r);
    var calls := RunPlan(plan, r.fails).calls;
    assert calls == plan[..|calls|];
  }
}
