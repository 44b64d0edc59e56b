/**
 `monitor_apps`: log in, list the applications, and for each one read its
 name, health and sync status and ask for a Slack notification unless it is
 both Healthy and Synced. The `argocd` commands are reduced to their
 outcomes (a login flag and a listing result); sending a notification is
 recorded as the arguments `send_slack_notification` is called with.
 */
module Monitor {
  import opened Wrappers
  import opened Json
  import opened Layout
  import opened Picking

  /** Where the name, the health status and the sync status sit in an application record. */
  const NamePath: seq<string> := ["metadata", "name"]
  const HealthPath: seq<string> := ["status", "health", "status"]
  const SyncPath: seq<string> := ["status", "sync", "status"]

  /** The fallbacks used when a key along a path is missing. */
  const UnknownName: Json := Str("Desconocido")
  const UnknownStatus: Json := Str("Unknown")

  /** The values the target state is made of. */
  const Healthy: Json := Str("Healthy")
  const Synced: Json := Str("Synced")

  /** The action text every notification of the monitor carries. */
  const AttentionAction: string := "La aplicación requiere atención."

  /** What the monitor reads from one application record. */
  datatype Snapshot = Snapshot(name: Json, health: Json, sync: Json)

  /** The arguments of one `send_slack_notification` call. */
  datatype Notification = Notification(appName: Json, status: Json, attempts: int, action: string)

  /** How a run of the monitor ends. */
  datatype Outcome =
    | Completed           // every application was visited
    | LoginFailed         // `argocd login` failed: nothing else happened
    | Crashed(fault: Fault)  // an uncaught exception stopped the run

  /** The notifications requested, in order, and how the run ended. */
  datatype Run = Run(sent: seq<Notification>, outcome: Outcome)

  /** What `argocd app list --output json` gave back. */
  datatype Listing =
    | CommandFailed     // non-zero exit: `get_argocd_apps` returns []
    | Undecodable       // stdout is not JSON: `json.loads` raises
    | Output(doc: Json) // the decoded document

  /**
   The three `.get` chains of one record. Each succeeds when every value it
   calls `.get` on is a dict, and then yields the nested value or, when any
   key on the way is missing, the fallback.
   */
  function ExtractSnapshot(app: Json): (r: Result<Snapshot, Fault>)
    ensures r.Ok? <==> Walkable(app, NamePath) && Walkable(app, HealthPath) && Walkable(app, SyncPath)
    ensures r.Err? ==> r.error == NoGetMethod
    ensures r.Ok? ==> r.value == Snapshot(At(app, NamePath).GetOr(UnknownName),
                                          At(app, HealthPath).GetOr(UnknownStatus),
                                          At(app, SyncPath).GetOr(UnknownStatus))
  {
    var name :- GetPath(app, NamePath, UnknownName);
    var health :- GetPath(app, HealthPath, UnknownStatus);
    var sync :- GetPath(app, SyncPath, UnknownStatus);
    Ok(Snapshot(name, health, sync))
  }

  /** An application is off target unless it is both Healthy and Synced. */
  predicate NeedsAttention(s: Snapshot)
  {
    s.health != Healthy || s.sync != Synced
  }

  /** The notification requested for an off-target app: its name and health, attempt 0, the fixed action. */
  function Notify(s: Snapshot): Notification
  {
    Notification(s.name, s.health, 0, AttentionAction)
  }

  /**
   One pass of the loop body: extract the snapshot, lay out the console row
   (whose `:<20` and `:<15` formats raise on a name or health that is None,
   a list or a dict), and request a notification for an off-target app.
   */
  function Visit(app: Json): (r: Result<Option<Notification>, Fault>)
    ensures r.Ok? && r.value.Some? ==> r.value.value.attempts == 0 && r.value.value.action == AttentionAction
  {
    var s :- ExtractSnapshot(app);
    var nameCell :- Cell(s.name, NameWidth);
    var statusCell :- Cell(s.health, StatusWidth);
    if NeedsAttention(s) then Ok(Some(Notify(s))) else Ok(None)
  }

  /**
   A record passes the loop body exactly when its snapshot can be read and
   its name and health can be laid out; it then asks for a notification
   exactly when it is not both Healthy and Synced, and the notification
   names the app and carries its health status (not its sync status).
   */
  lemma VisitDecides(app: Json)
    ensures Visit(app).Ok? <==> && ExtractSnapshot(app).Ok?
                                && Shown(ExtractSnapshot(app).value.name).Some?
                                && Shown(ExtractSnapshot(app).value.health).Some?
    ensures Visit(app).Ok? ==>
              var s := ExtractSnapshot(app).value;
              (Visit(app).value.None? <==> s.health == Healthy && s.sync == Synced)
    ensures Visit(app).Ok? && Visit(app).value.Some? ==>
              var s := ExtractSnapshot(app).value;
              Visit(app).value.value == Notify(s)
  {
  }

  /** A loop body: what one record yields, or the exception it raises. */
  type Step = Json -> Result<Option<Notification>, Fault>

  /** `for app in apps:` around the loop body `step`, stopping at the first exception. */
  function Loop(step: Step, apps: seq<Json>): (r: Run)
    ensures r.outcome.Completed? || r.outcome.Crashed?
    ensures |r.sent| <= |apps|
    decreases |apps|
  {
    if |apps| == 0 then Run([], Completed)
    else
      match step(apps[0])
      case Err(f) => Run([], Crashed(f))
      case Ok(o) =>
        var rest := Loop(step, apps[1..]);
        Run((if o.Some? then [o.value] else []) + rest.sent, rest.outcome)
  }

  /** The loop of `monitor_apps` over the records: every notification it requests has attempts 0 and the attention text. */
  function VisitAll(apps: seq<Json>): (r: Run)
    ensures forall k :: 0 <= k < |r.sent| ==> r.sent[k].attempts == 0 && r.sent[k].action == AttentionAction
  {
    LoopSendsStepRequests(Visit, apps);
    Loop(Visit, apps)
  }

  /** Every notification of a run was requested by one of the records. */
  lemma {:induction false} LoopSendsStepRequests(step: Step, apps: seq<Json>)
    ensures forall k :: 0 <= k < |Loop(step, apps).sent| ==>
              exists i :: 0 <= i < |apps| && step(apps[i]) == Ok(Some(Loop(step, apps).sent[k]))
    decreases |apps|
  {
    if |apps| > 0 && step(apps[0]).Ok? {
      var rest := apps[1..];
      LoopSendsStepRequests(step, rest);
      var sent := Loop(step, apps).sent;
      var restSent := Loop(step, rest).sent;
      var lead := if step(apps[0]).value.Some? then 1 else 0;
      assert sent == (if lead == 1 then [step(apps[0]).value.value] else []) + restSent;
      forall k | 0 <= k < |sent|
        ensures exists i :: 0 <= i < |apps| && step(apps[i]) == Ok(Some(sent[k]))
      {
        if k < lead {
          assert step(apps[0]) == Ok(Some(sent[k]));
        } else {
          assert sent[k] == restSent[k - lead];
          var i :| 0 <= i < |rest| && step(rest[i]) == Ok(Some(restSent[k - lead]));
          assert apps[i + 1] == rest[i];
        }
      }
    } else {
      assert Loop(step, apps).sent == [];
    }
  }

  /** A run completes exactly when no record raises. */
  lemma {:induction false} LoopCompletesIffNoFault(step: Step, apps: seq<Json>)
    ensures Loop(step, apps).outcome == Completed <==> forall i :: 0 <= i < |apps| ==> step(apps[i]).Ok?
    decreases |apps|
  {
    if |apps| > 0 {
      var rest := apps[1..];
      LoopCompletesIffNoFault(step, rest);
      if step(apps[0]).Ok? {
        if forall i :: 0 <= i < |rest| ==> step(rest[i]).Ok? {
          forall i | 0 <= i < |apps|
            ensures step(apps[i]).Ok?
          {
            if i > 0 {
              assert apps[i] == rest[i - 1];
            }
          }
        } else {
          var i :| 0 <= i < |rest| && step(rest[i]).Err?;
          assert apps[i + 1] == rest[i];
        }
      }
    }
  }

  /** What each record of a run in which none raises asks for. */
  function Requests(step: Step, apps: seq<Json>): (r: seq<Option<Notification>>)
    requires forall i :: 0 <= i < |apps| ==> step(apps[i]).Ok?
    ensures |r| == |apps|
    ensures forall i :: 0 <= i < |apps| ==> r[i] == step(apps[i]).value
    decreases |apps|
  {
    if |apps| == 0 then []
    else
      assert forall i :: 0 <= i < |apps| - 1 ==> apps[1..][i] == apps[i + 1];
      [step(apps[0]).value] + Requests(step, apps[1..])
  }

  /** In a run in which no record raises, the notifications are the requests of the records, in order. */
  lemma {:induction false} LoopSendsRequests(step: Step, apps: seq<Json>)
    requires forall i :: 0 <= i < |apps| ==> step(apps[i]).Ok?
    ensures Loop(step, apps) == Run(Somes(Requests(step, apps)), Completed)
    decreases |apps|
  {
    if |apps| > 0 {
      var rest := apps[1..];
      assert forall i :: 0 <= i < |rest| ==> rest[i] == apps[i + 1];
      LoopSendsRequests(step, rest);
      assert Requests(step, apps)[1..] == Requests(step, rest);
    }
  }

  /**
   When record `k` is the first to raise, the run ends with its exception,
   after exactly the notifications of the records before it.
   */
  lemma {:induction false} LoopStopsAtFirstFault(step: Step, apps: seq<Json>, k: nat)
    requires k < |apps| && step(apps[k]).Err?
    requires forall i :: 0 <= i < k ==> step(apps[i]).Ok?
    ensures Loop(step, apps).outcome == Crashed(step(apps[k]).error)
    ensures Loop(step, apps).sent == Loop(step, apps[..k]).sent
    decreases k
  {
    if k > 0 {
      var rest := apps[1..];
      assert rest[k - 1] == apps[k];
      assert forall i :: 0 <= i < k - 1 ==> rest[i] == apps[i + 1];
      LoopStopsAtFirstFault(step, rest, k - 1);
      assert apps[..k][0] == apps[0];
      assert apps[..k][1..] == rest[..k - 1];
    }
  }

  /**
   The values `for app in apps` hands to the loop body, or the exception the
   loop raises first: iterating a number, a boolean or None raises TypeError;
   iterating a non-empty dict or string yields strings, whose `.get` raises
   AttributeError; an empty dict or string yields nothing.
   */
  function Iterate(doc: Json): (r: Result<seq<Json>, Fault>)
    ensures doc.Arr? ==> r == Ok(doc.items)
    ensures r.Ok? ==> doc.Arr? || |r.value| == 0
    ensures doc.Null? || doc.Bool? || doc.Num? ==> r == Err(NotIterable)
    ensures doc.Obj? ==> (r.Ok? <==> |doc.fields| == 0)
    ensures doc.Str? ==> (r.Ok? <==> |doc.s| == 0)
    ensures (doc.Obj? || doc.Str?) && r.Err? ==> r.error == NoGetMethod
  {
    match doc
    case Arr(items) => Ok(items)
    case Obj(m) => if |m| == 0 then Ok([]) else Err(NoGetMethod)
    case Str(s) => if |s| == 0 then Ok([]) else Err(NoGetMethod)
    case _ => Err(NotIterable)
  }

  /** `monitor_apps()`, given whether the login succeeded and what the listing command gave back. */
  function MonitorApps(loginOk: bool, listing: Listing): (r: Run)
    ensures !loginOk ==> r.sent == [] && r.outcome == LoginFailed
    ensures loginOk ==> !r.outcome.LoginFailed?
    ensures |r.sent| <= if listing.Output? && listing.doc.Arr? then |listing.doc.items| else 0
    ensures loginOk && listing.Undecodable? ==> r == Run([], Crashed(BadJson))
    ensures loginOk && listing.Output? && Iterate(listing.doc).Err? ==> r == Run([], Crashed(Iterate(listing.doc).error))
  {
    if !loginOk then Run([], LoginFailed)
    else
      match listing
      case CommandFailed => VisitAll([])
      case Undecodable => Run([], Crashed(BadJson))
      case Output(doc) =>
        match Iterate(doc)
        case Err(f) => Run([], Crashed(f))
        case Ok(apps) => VisitAll(apps)
  }

  /**
   The fallbacks in the record's own terms: a missing `metadata` or `name`
   gives "Desconocido", a missing `status`, `health`, `sync` or inner
   `status` gives "Unknown", and a present value is taken unchanged.
   */
  lemma ExtractDefaults(app: Json)
    requires ExtractSnapshot(app).Ok?
    ensures app.Obj?
    ensures var s := ExtractSnapshot(app).value;
            var f := app.fields;
            && ("metadata" !in f ==> s.name == UnknownName)
            && ("metadata" in f ==>
                  f["metadata"].Obj? &&
                  s.name == (if "name" in f["metadata"].fields then f["metadata"].fields["name"] else UnknownName))
            && ("status" !in f ==> s.health == UnknownStatus && s.sync == UnknownStatus)
  {
  }

  /** The health side of the fallbacks, once the record has a `status` object. */
  lemma HealthDefaults(app: Json)
    requires ExtractSnapshot(app).Ok?
    requires app.Obj? && "status" in app.fields
    ensures var s := ExtractSnapshot(app).value;
            var st := app.fields["status"];
            && st.Obj?
            && ("health" !in st.fields ==> s.health == UnknownStatus)
            && ("health" in st.fields ==>
                  st.fields["health"].Obj? &&
                  s.health == (if "status" in st.fields["health"].fields then st.fields["health"].fields["status"] else UnknownStatus))
            && ("sync" !in st.fields ==> s.sync == UnknownStatus)
            && ("sync" in st.fields ==>
                  st.fields["sync"].Obj? &&
                  s.sync == (if "status" in st.fields["sync"].fields then st.fields["sync"].fields["status"] else UnknownStatus))
  {
  }

  /** A record whose health or sync status is missing is always reported. */
  lemma MissingStatusNotifies(app: Json)
    requires Visit(app).Ok?
    requires At(app, HealthPath).None? || At(app, SyncPath).None?
    ensures Visit(app).value.Some?
  {
    VisitDecides(app);
  }

  /** A run of the monitor's loop completes exactly when no record raises. */
  lemma CompletesIffNoFault(apps: seq<Json>)
    ensures VisitAll(apps).outcome == Completed <==> forall i :: 0 <= i < |apps| ==> Visit(apps[i]).Ok?
  {
    LoopCompletesIffNoFault(Visit, apps);
  }

  /**
   When no record raises, the run sends one notification per off-target
   record and nothing for the others, in list order: `idx` (the positions of
   the requesting records) strictly increases, its `k`-th entry is the record
   whose name and health the `k`-th notification carries, and it holds every
   record that is not both Healthy and Synced.
   */
  lemma SentAreAttentionAppsInOrder(apps: seq<Json>)
    requires forall i :: 0 <= i < |apps| ==> Visit(apps[i]).Ok?
    ensures VisitAll(apps).outcome == Completed
    ensures var sent := VisitAll(apps).sent;
            var idx := Origins(Requests(Visit, apps));
            && |idx| == |sent|
            && Increasing(idx)
            && (forall k :: 0 <= k < |idx| ==>
                  && idx[k] < |apps|
                  && ExtractSnapshot(apps[idx[k]]).Ok?
                  && NeedsAttention(ExtractSnapshot(apps[idx[k]]).value)
                  && sent[k] == Notify(ExtractSnapshot(apps[idx[k]]).value))
            && (forall i :: 0 <= i < |apps| ==>
                  ExtractSnapshot(apps[i]).Ok? && NeedsAttention(ExtractSnapshot(apps[i]).value) ==> i in idx)
  {
    var outs := Requests(Visit, apps);
    LoopSendsRequests(Visit, apps);
    SomesInOrder(outs);
    forall i | 0 <= i < |apps|
      ensures ExtractSnapshot(apps[i]).Ok?
      ensures outs[i].Some? <==> NeedsAttention(ExtractSnapshot(apps[i]).value)
      ensures outs[i].Some? ==> outs[i].value == Notify(ExtractSnapshot(apps[i]).value)
    {
      VisitDecides(apps[i]);
    }
  }

  /**
   When record `k` is the first to raise, the run ends with its exception,
   after exactly the notifications of the records before it.
   */
  lemma CrashKeepsEarlierNotices(apps: seq<Json>, k: nat)
    requires k < |apps| && Visit(apps[k]).Err?
    requires forall i :: 0 <= i < k ==> Visit(apps[i]).Ok?
    ensures VisitAll(apps).outcome == Crashed(Visit(apps[k]).error)
    ensures VisitAll(apps).sent == VisitAll(apps[..k]).sent
  {
    LoopStopsAtFirstFault(Visit, apps, k);
  }

  /** Every notification the loop requests lays out its message without raising. */
  lemma SentMessagesRender(apps: seq<Json>)
    ensures forall k :: 0 <= k < |VisitAll(apps).sent| ==>
              var n := VisitAll(apps).sent[k];
              MessageText(n.appName, n.status, n.attempts, n.action).Ok?
  {
    var sent := VisitAll(apps).sent;
    LoopSendsStepRequests(Visit, apps);
    forall k | 0 <= k < |sent|
      ensures MessageText(sent[k].appName, sent[k].status, sent[k].attempts, sent[k].action).Ok?
    {
      var i :| 0 <= i < |apps| && Visit(apps[i]) == Ok(Some(sent[k]));
      VisitDecides(apps[i]);
    }
  }

  /** A failed login stops the run before the listing is looked at. */
  lemma LoginFailureFetchesNothing(l1: Listing, l2: Listing)
    ensures MonitorApps(false, l1) == MonitorApps(false, l2)
    ensures MonitorApps(false, l1).sent == []
  {
  }

  /** A failed listing command behaves as an empty application list. */
  lemma FailedListingIsEmptyList()
    ensures MonitorApps(true, CommandFailed) == MonitorApps(true, Output(Arr([])))
    ensures MonitorApps(true, CommandFailed) == Run([], Completed)
  {
  }

  /**
   A listing the `for` statement cannot walk as records ends the run before
   any notification: None, a number or a boolean is not iterable, and the
   first key of a non-empty dict or character of a non-empty string has no
   `.get`. An empty dict or string is an empty list.
   */
  lemma UnwalkableListingCrashes(doc: Json)
    ensures doc.Null? || doc.Bool? || doc.Num? ==> MonitorApps(true, Output(doc)) == Run([], Crashed(NotIterable))
    ensures (doc.Obj? && |doc.fields| > 0) || (doc.Str? && |doc.s| > 0) ==>
              MonitorApps(true, Output(doc)) == Run([], Crashed(NoGetMethod))
    ensures (doc.Obj? && |doc.fields| == 0) || (doc.Str? && |doc.s| == 0) ==>
              MonitorApps(true, Output(doc)) == Run([], Completed)
  {
  }

  /** A listing that is a JSON array is visited record by record. */
  lemma ListedArrayIsVisited(apps: seq<Json>)
    ensures MonitorApps(true, Output(Arr(apps))) == VisitAll(apps)
  {
  }

  /** A record that is Healthy and Synced asks for nothing. */
  lemma ExampleQuietRecord(web: Json)
    requires web == Obj(map["metadata" := Obj(map["name" := Str("web")]),
                            "status" := Obj(map["health" := Obj(map["status" := Healthy]),
                                                "sync" := Obj(map["status" := Synced])])])
    ensures Visit(web) == Ok(None)
  {
    assert ExtractSnapshot(web) == Ok(Snapshot(Str("web"), Healthy, Synced));
    VisitDecides(web);
  }

  /** A Degraded record asks for a notification carrying its health status. */
  lemma ExampleDegradedRecord(api: Json)
    requires api == Obj(map["metadata" := Obj(map["name" := Str("api")]),
                            "status" := Obj(map["health" := Obj(map["status" := Str("Degraded")]),
                                                "sync" := Obj(map["status" := Synced])])])
    ensures Visit(api) == Ok(Some(Notification(Str("api"), Str("Degraded"), 0, AttentionAction)))
  {
    assert ExtractSnapshot(api) == Ok(Snapshot(Str("api"), Str("Degraded"), Synced));
    VisitDecides(api);
  }

  /** An empty record asks for a notification under the fallbacks. */
  lemma ExampleEmptyRecord()
    ensures Visit(EmptyObj) == Ok(Some(Notification(UnknownName, UnknownStatus, 0, AttentionAction)))
  {
    assert ExtractSnapshot(EmptyObj) == Ok(Snapshot(UnknownName, UnknownStatus, UnknownStatus));
    VisitDecides(EmptyObj);
  }

  /**
   A healthy, synced record yields nothing; a degraded one and a record with
   nothing in it are both reported, the latter under the fallbacks.
   */
  lemma ExampleRun(web: Json, api: Json)
    requires web == Obj(map["metadata" := Obj(map["name" := Str("web")]),
                            "status" := Obj(map["health" := Obj(map["status" := Healthy]),
                                                "sync" := Obj(map["status" := Synced])])])
    requires api == Obj(map["metadata" := Obj(map["name" := Str("api")]),
                            "status" := Obj(map["health" := Obj(map["status" := Str("Degraded")]),
                                                "sync" := Obj(map["status" := Synced])])])
    ensures MonitorApps(true, Output(Arr([web, api, EmptyObj])))
         == Run([Notification(Str("api"), Str("Degraded"), 0, AttentionAction),
                 Notification(UnknownName, UnknownStatus, 0, AttentionAction)], Completed)
  {
    ExampleQuietRecord(web);
    ExampleDegradedRecord(api);
    ExampleEmptyRecord();
    ThreeRecordLoop(Visit, web, api, EmptyObj);
  }

  /** A loop over three records of which the first asks for nothing and the other two for a notification each. */
  lemma ThreeRecordLoop(step: Step, a: Json, b: Json, c: Json)
    requires step(a).Ok? && step(a).value.None?
    requires step(b).Ok? && step(b).value.Some?
    requires step(c).Ok? && step(c).value.Some?
    ensures Loop(step, [a, b, c]) == Run([step(b).value.value, step(c).value.value], Completed)
  {
    var apps := [a, b, c];
    assert apps[1..] == [b, c] && apps[1..][1..] == [c] && apps[1..][1..][1..] == [];
    assert Loop(step, [c]) == Run([step(c).value.value], Completed);
  }
}
