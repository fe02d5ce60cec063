/**
 * The request pipeline as values: what handling one notify-request
 * writes to the caller, which notifications it hands to the push client,
 * which subscription files it removes and how it ends.
 *
 * `Run` folds `Step` over the directory listing from the left, the way
 * the handler's loop walks it; `Subscriptions`, `Settled`, `Reports`,
 * `Notifications` and `PrunedNames` describe the same outcome without the
 * loop, and `RunMatchesSubscriptions` proves the two agree.
 */
module Pipeline {
  import opened Wrappers
  import opened Records
  import opened Dispatch

  /**
   * What one request depends on besides the directory: the mailbox path,
   * the process topic, the clock, the JSON decoder, the push service and
   * whether the file system lets a subscription file be unlinked.
   */
  datatype Env = Env(
    dir: string,
    topic: string,
    now: int,
    parse: Bytes -> Option<Device>,
    respond: Notification -> PushOutcome,
    canRemove: (string, string) -> bool)

  /**
   * How a request ends: by returning, by `log.Fatal` after a transport
   * error (the process exits), or by the panic of slicing a token shorter
   * than 8 bytes (the process dies too).
   */
  datatype Exit = Normal | FatalLog | Panic

  /** What the loop has done so far: fragments written, notifications sent, files removed. */
  datatype Progress = Progress(written: string, pushed: seq<Notification>, removed: set<string>, exit: Exit)

  const Start: Progress := Progress("", [], {}, Normal)

  /** The subscription record an entry holds, if its file can be read and decoded. */
  function Decode(env: Env, e: Entry): Option<Device> {
    match e.content
    case None => None
    case Some(data) => env.parse(data)
  }

  /** One pass of the loop body over entry `e`. */
  function Step(env: Env, p: Progress, e: Entry): Progress {
    if p.exit != Normal then p
    else match Decode(env, e)
      case None => p
      case Some(device) => Deliver(env, p, e, device)
  }

  /**
   * The part of the loop body after `e` decoded to `device`: push the
   * notification, report the response, and prune the file as it says.
   */
  function Deliver(env: Env, p: Progress, e: Entry, device: Device): Progress {
    var n := Notify(env.topic, env.now, device);
    var sent := p.(pushed := p.pushed + [n]);
    match env.respond(n)
    case TransportError => sent.(exit := FatalLog)
    case Response(status, _, timestamp) =>
      if |device.deviceToken| < 8 then sent.(exit := Panic)
      else ReportAndPrune(env, sent, e, device.deviceToken, status, timestamp)
  }

  /** Writing the fragment for a response and removing the file if the pruning rule says so. */
  function ReportAndPrune(env: Env, p: Progress, e: Entry, token: string, status: int, timestamp: int): Progress
    requires |token| >= 8
  {
    var reported := p.(written := p.written + Fragment(Report(token[..8], status)));
    if ShouldRemove(status, e.modTime, timestamp) && env.canRemove(env.dir, e.name)
    then reported.(removed := p.removed + {e.name})
    else reported
  }

  /** The loop over the listing `es`, in listing order. */
  function Run(env: Env, es: seq<Entry>): Progress
    decreases |es|
  {
    if es == [] then Start else Step(env, Run(env, es[..|es| - 1]), es[|es| - 1])
  }

  lemma RunAppend(env: Env, es: seq<Entry>, e: Entry)
    ensures Run(env, es + [e]) == Step(env, Run(env, es), e)
  {
    assert (es + [e])[..|es|] == es;
  }

  /** Extending the processed prefix of the listing by one entry is one more step. */
  lemma RunPrefixStep(env: Env, es: seq<Entry>, i: nat)
    requires i < |es|
    ensures Run(env, es[..i + 1]) == Step(env, Run(env, es[..i]), es[i])
  {
    assert es[..i + 1] == es[..i] + [es[i]];
    RunAppend(env, es[..i], es[i]);
  }

  // ---------------------------------------------------------------------
  // The outcome described without the loop

  /** A decoded subscription record together with the entry that holds it. */
  datatype Subscription = Subscription(entry: Entry, device: Device)

  /** The entries that can be read and decoded, in listing order. */
  function Subscriptions(env: Env, es: seq<Entry>): seq<Subscription>
    decreases |es|
  {
    if es == [] then []
    else
      var init := Subscriptions(env, es[..|es| - 1]);
      var e := es[|es| - 1];
      match Decode(env, e)
      case None => init
      case Some(device) => init + [Subscription(e, device)]
  }

  function ResponseTo(env: Env, s: Subscription): PushOutcome {
    env.respond(Notify(env.topic, env.now, s.device))
  }

  /** The service answered and the token is long enough to report. */
  predicate Delivered(env: Env, s: Subscription) {
    ResponseTo(env, s).Response? && |s.device.deviceToken| >= 8
  }

  /** The number of leading subscriptions that are delivered. */
  function Settled(env: Env, subs: seq<Subscription>): (k: nat)
    ensures k <= |subs|
    ensures forall j :: 0 <= j < k ==> Delivered(env, subs[j])
    ensures k < |subs| ==> !Delivered(env, subs[k])
    decreases |subs|
  {
    if subs == [] || !Delivered(env, subs[0]) then 0 else 1 + Settled(env, subs[1..])
  }

  predicate AllDelivered(env: Env, subs: seq<Subscription>) {
    forall j :: 0 <= j < |subs| ==> Delivered(env, subs[j])
  }

  function ReportFor(env: Env, s: Subscription): Report
    requires Delivered(env, s)
  {
    Report(s.device.deviceToken[..8], ResponseTo(env, s).statusCode)
  }

  /** The report of each subscription, in order. */
  function Reports(env: Env, subs: seq<Subscription>): seq<Report>
    requires AllDelivered(env, subs)
  {
    seq(|subs|, j requires 0 <= j < |subs| => ReportFor(env, subs[j]))
  }

  /** The notification of each subscription, in order. */
  function Notifications(env: Env, subs: seq<Subscription>): seq<Notification> {
    seq(|subs|, j requires 0 <= j < |subs| => Notify(env.topic, env.now, subs[j].device))
  }

  /** The pruning rule chose the file and unlinking it succeeds. */
  predicate Prunes(env: Env, s: Subscription)
    requires Delivered(env, s)
  {
    var r := ResponseTo(env, s);
    ShouldRemove(r.statusCode, s.entry.modTime, r.timestamp) && env.canRemove(env.dir, s.entry.name)
  }

  /** The names of the files the pruning rule removes. */
  function PrunedNames(env: Env, subs: seq<Subscription>): set<string>
    requires AllDelivered(env, subs)
  {
    set j | 0 <= j < |subs| && Prunes(env, subs[j]) :: subs[j].entry.name
  }

  lemma SettledAppend(env: Env, subs: seq<Subscription>, s: Subscription)
    ensures Settled(env, subs + [s]) ==
      if Settled(env, subs) < |subs| then Settled(env, subs)
      else if Delivered(env, s) then |subs| + 1
      else |subs|
  {
    var k, k' := Settled(env, subs), Settled(env, subs + [s]);
    if k < |subs| {
      assert (subs + [s])[k] == subs[k];
    } else {
      assert forall j :: 0 <= j < |subs| ==> (subs + [s])[j] == subs[j];
      assert (subs + [s])[|subs|] == s;
    }
  }

  lemma ReportsAppend(env: Env, subs: seq<Subscription>, s: Subscription)
    requires AllDelivered(env, subs) && Delivered(env, s)
    ensures AllDelivered(env, subs + [s])
    ensures Reports(env, subs + [s]) == Reports(env, subs) + [ReportFor(env, s)]
  {
    assert forall j :: 0 <= j < |subs| ==> (subs + [s])[j] == subs[j];
  }

  lemma NotificationsAppend(env: Env, subs: seq<Subscription>, s: Subscription)
    ensures Notifications(env, subs + [s]) == Notifications(env, subs) + [Notify(env.topic, env.now, s.device)]
  {
    assert forall j :: 0 <= j < |subs| ==> (subs + [s])[j] == subs[j];
  }

  lemma PrunedNamesAppend(env: Env, subs: seq<Subscription>, s: Subscription)
    requires AllDelivered(env, subs) && Delivered(env, s)
    ensures AllDelivered(env, subs + [s])
    ensures PrunedNames(env, subs + [s]) ==
      PrunedNames(env, subs) + (if Prunes(env, s) then {s.entry.name} else {})
  {
    var all := subs + [s];
    assert forall j :: 0 <= j < |subs| ==> all[j] == subs[j];
    assert all[|subs|] == s;
    var lhs, rhs := PrunedNames(env, all), PrunedNames(env, subs) + (if Prunes(env, s) then {s.entry.name} else {});
    forall n | n in lhs ensures n in rhs {
      var j :| 0 <= j < |all| && Prunes(env, all[j]) && all[j].entry.name == n;
      if j < |subs| {
        assert subs[j] == all[j];
      }
    }
    forall n | n in rhs ensures n in lhs {
      if n in PrunedNames(env, subs) {
        var j :| 0 <= j < |subs| && Prunes(env, subs[j]) && subs[j].entry.name == n;
        assert all[j] == subs[j];
      } else {
        assert all[|subs|] == s;
      }
    }
  }

  /**
   * `p` is what the loop has done after meeting the decoded records
   * `subs`: it sent one notification to every record in order until the
   * first one that is not delivered (that one is still sent), wrote the
   * report of each delivered one before it, removed the files the pruning
   * rule chose among those, and is still running only if every record was
   * delivered; a transport error ends it with `log.Fatal`, a short token
   * with a panic.
   */
  predicate Agrees(env: Env, subs: seq<Subscription>, p: Progress) {
    var k := Settled(env, subs);
    && p.written == Line(Reports(env, subs[..k]))
    && p.pushed == Notifications(env, subs[..if k < |subs| then k + 1 else k])
    && p.removed == PrunedNames(env, subs[..k])
    && p.exit == (if k == |subs| then Normal
                  else if ResponseTo(env, subs[k]).TransportError? then FatalLog
                  else Panic)
  }

  lemma AgreesAfterHalt(env: Env, subs0: seq<Subscription>, p0: Progress, e: Entry, s: Subscription)
    requires Agrees(env, subs0, p0) && Settled(env, subs0) < |subs0|
    requires Decode(env, e) == Some(s.device) && s.entry == e
    ensures Agrees(env, subs0 + [s], Step(env, p0, e))
  {
    var k0 := Settled(env, subs0);
    var subs := subs0 + [s];
    SettledAppend(env, subs0, s);
    assert subs[..k0] == subs0[..k0];
    assert subs[..k0 + 1] == subs0[..k0 + 1];
    assert subs[k0] == subs0[k0];
  }

  lemma AgreesAfterDelivered(env: Env, subs0: seq<Subscription>, p0: Progress, e: Entry, s: Subscription)
    requires Agrees(env, subs0, p0) && Settled(env, subs0) == |subs0|
    requires Decode(env, e) == Some(s.device) && s.entry == e && Delivered(env, s)
    ensures Agrees(env, subs0 + [s], Step(env, p0, e))
  {
    var subs := subs0 + [s];
    SettledAppend(env, subs0, s);
    assert subs0[..|subs0|] == subs0 && subs[..|subs|] == subs;
    NotificationsAppend(env, subs0, s);
    ReportsAppend(env, subs0, s);
    PrunedNamesAppend(env, subs0, s);
    LineAppend(Reports(env, subs0), ReportFor(env, s));
  }

  lemma AgreesAfterUndelivered(env: Env, subs0: seq<Subscription>, p0: Progress, e: Entry, s: Subscription)
    requires Agrees(env, subs0, p0) && Settled(env, subs0) == |subs0|
    requires Decode(env, e) == Some(s.device) && s.entry == e && !Delivered(env, s)
    ensures Agrees(env, subs0 + [s], Step(env, p0, e))
  {
    var subs := subs0 + [s];
    SettledAppend(env, subs0, s);
    assert subs0[..|subs0|] == subs0 && subs[..|subs0|] == subs0 && subs[..|subs0| + 1] == subs;
    NotificationsAppend(env, subs0, s);
    assert subs[|subs0|] == s;
  }

  /** The loop over the listing does exactly what `Agrees` describes of its decoded records. */
  lemma {:induction false} RunMatchesSubscriptions(env: Env, es: seq<Entry>)
    ensures Agrees(env, Subscriptions(env, es), Run(env, es))
    decreases |es|
  {
    if es != [] {
      var init, e := es[..|es| - 1], es[|es| - 1];
      RunMatchesSubscriptions(env, init);
      var subs0 := Subscriptions(env, init);
      var p0 := Run(env, init);
      match Decode(env, e)
      case None =>
      case Some(device) =>
        var s := Subscription(e, device);
        assert Subscriptions(env, es) == subs0 + [s];
        if Settled(env, subs0) < |subs0| {
          AgreesAfterHalt(env, subs0, p0, e, s);
        } else if Delivered(env, s) {
          AgreesAfterDelivered(env, subs0, p0, e, s);
        } else {
          AgreesAfterUndelivered(env, subs0, p0, e, s);
        }
    }
  }

  /** Once the request has died, later entries change nothing. */
  lemma {:induction false} HaltIsFinal(env: Env, es: seq<Entry>, more: seq<Entry>)
    requires Run(env, es).exit != Normal
    ensures Run(env, es + more) == Run(env, es)
    decreases |more|
  {
    if more != [] {
      var front := more[..|more| - 1];
      assert (es + more)[..|es + more| - 1] == es + front;
      assert (es + more)[|es + more| - 1] == more[|more| - 1];
      HaltIsFinal(env, es, front);
    } else {
      assert es + more == es;
    }
  }

  /** A request that dies at entry `i` has done, over the whole listing, what it had done by then. */
  lemma HaltAt(env: Env, es: seq<Entry>, i: nat)
    requires i < |es| && Run(env, es[..i + 1]).exit != Normal
    ensures Run(env, es) == Run(env, es[..i + 1])
  {
    HaltIsFinal(env, es[..i + 1], es[i + 1..]);
    assert es[..i + 1] + es[i + 1..] == es;
  }

  /** An entry that cannot be read or decoded gets no fragment, no push and no removal. */
  lemma SkipsUndecodable(env: Env, es: seq<Entry>, e: Entry)
    requires Decode(env, e).None?
    ensures Run(env, es + [e]) == Run(env, es)
  {
    RunAppend(env, es, e);
  }

  /** A listing none of whose entries decodes leaves the loop with nothing done. */
  lemma {:induction false} NothingDecodedNothingDone(env: Env, es: seq<Entry>)
    requires forall k :: 0 <= k < |es| ==> Decode(env, es[k]).None?
    ensures Run(env, es) == Start
    decreases |es|
  {
    if es != [] {
      NothingDecodedNothingDone(env, es[..|es| - 1]);
    }
  }

  /**
   * Whether unlinking a file succeeds changes neither the reply, nor the
   * notifications sent, nor how the request ends.
   */
  lemma {:induction false} RemovalFailureInvisible(env: Env, es: seq<Entry>, canRemove: (string, string) -> bool)
    ensures var p, q := Run(env, es), Run(env.(canRemove := canRemove), es);
      p.written == q.written && p.pushed == q.pushed && p.exit == q.exit
    decreases |es|
  {
    if es != [] {
      RemovalFailureInvisible(env, es[..|es| - 1], canRemove);
    }
  }

  function Names(es: seq<Entry>): set<string> {
    set e | e in es :: e.name
  }

  /** Only files of entries already processed are ever removed. */
  lemma {:induction false} RemovedAreListed(env: Env, es: seq<Entry>)
    ensures Run(env, es).removed <= Names(es)
    decreases |es|
  {
    if es != [] {
      var init := es[..|es| - 1];
      RemovedAreListed(env, init);
      assert forall e :: e in init ==> e in es;
      assert es[|es| - 1] in es;
    }
  }

  // ---------------------------------------------------------------------
  // The `.push` directory as an ordered listing

  predicate DistinctNames(es: seq<Entry>) {
    forall i, j :: 0 <= i < j < |es| ==> es[i].name != es[j].name
  }

  /** The listing after the files named in `gone` are unlinked. */
  function Without(es: seq<Entry>, gone: set<string>): seq<Entry>
    decreases |es|
  {
    if es == [] then []
    else (if es[0].name in gone then [] else [es[0]]) + Without(es[1..], gone)
  }

  /** The entry a directory lists under `name`, if any. */
  function Lookup(es: seq<Entry>, name: string): Option<Entry>
    decreases |es|
  {
    if es == [] then None
    else if es[0].name == name then Some(es[0])
    else Lookup(es[1..], name)
  }

  /** Unlinking keeps exactly the entries whose names were not unlinked. */
  lemma {:induction false} WithoutMembers(es: seq<Entry>, gone: set<string>)
    ensures forall e :: e in Without(es, gone) <==> e in es && e.name !in gone
    decreases |es|
  {
    if es != [] {
      WithoutMembers(es[1..], gone);
      assert forall e :: e in es <==> e == es[0] || e in es[1..];
    }
  }

  lemma {:induction false} WithoutNothing(es: seq<Entry>)
    ensures Without(es, {}) == es
    decreases |es|
  {
    if es != [] {
      WithoutNothing(es[1..]);
      assert [es[0]] + es[1..] == es;
    }
  }

  /** Unlinking in two rounds is unlinking both sets at once. */
  lemma {:induction false} WithoutTwice(es: seq<Entry>, a: set<string>, b: set<string>)
    ensures Without(Without(es, a), b) == Without(es, a + b)
    decreases |es|
  {
    if es != [] {
      WithoutTwice(es[1..], a, b);
      var head := if es[0].name in a then [] else [es[0]];
      var rest := Without(es[1..], a);
      assert Without(es, a) == head + rest;
      if es[0].name in a {
        assert head + rest == rest;
      } else {
        assert (head + rest)[0] == es[0] && (head + rest)[1..] == rest;
      }
    }
  }

  lemma {:induction false} WithoutDistinct(es: seq<Entry>, gone: set<string>)
    requires DistinctNames(es)
    ensures DistinctNames(Without(es, gone))
    decreases |es|
  {
    if es != [] {
      var tail := es[1..];
      WithoutDistinct(tail, gone);
      WithoutMembers(tail, gone);
      var w := Without(es, gone);
      var rest := Without(tail, gone);
      if es[0].name !in gone {
        assert w == [es[0]] + rest;
        forall i, j | 0 <= i < j < |w| ensures w[i].name != w[j].name {
          if i == 0 {
            assert w[j] == rest[j - 1];
            assert rest[j - 1] in tail;
            var m :| 0 <= m < |tail| && tail[m] == rest[j - 1];
            assert es[m + 1] == tail[m];
          } else {
            assert w[i] == rest[i - 1] && w[j] == rest[j - 1];
          }
        }
      } else {
        assert w == rest;
      }
    }
  }

  lemma {:induction false} LookupDistinct(es: seq<Entry>, k: nat)
    requires DistinctNames(es) && k < |es|
    ensures Lookup(es, es[k].name) == Some(es[k])
    decreases |es|
  {
    if k > 0 {
      assert es[0].name != es[k].name;
      assert es[1..][k - 1] == es[k];
      LookupDistinct(es[1..], k - 1);
    }
  }

  /** Unlinking other files does not change what a name looks up. */
  lemma {:induction false} LookupWithout(es: seq<Entry>, gone: set<string>, name: string)
    requires name !in gone
    ensures Lookup(Without(es, gone), name) == Lookup(es, name)
    decreases |es|
  {
    if es != [] {
      LookupWithout(es[1..], gone, name);
      var rest := Without(es[1..], gone);
      if es[0].name !in gone {
        assert Without(es, gone) == [es[0]] + rest;
        assert ([es[0]] + rest)[1..] == rest;
      } else {
        assert Without(es, gone) == rest;
      }
    }
  }

  // ---------------------------------------------------------------------
  // One whole request

  /** What serving one connection yields: the reply, the push directories afterwards, the notifications sent. */
  datatype Served = Served(reply: string, dirs: map<string, seq<Entry>>, pushed: seq<Notification>, exit: Exit)

  /**
   * Serving one connection whose request line is `line` (None when it
   * cannot be read), with `dirs` mapping each mailbox path whose `.push`
   * directory can be listed to its listing.
   */
  function Serve(
    dirs: map<string, seq<Entry>>, line: Option<string>, topic: string, now: int,
    parse: Bytes -> Option<Device>, respond: Notification -> PushOutcome,
    canRemove: (string, string) -> bool): Served
  {
    match line
    case None => Served("", dirs, [], Normal)
    case Some(d) =>
      if d !in dirs || dirs[d] == [] then Served("Push " + d + " disabled\n", dirs, [], Normal)
      else
        var p := Run(Env(d, topic, now, parse, respond, canRemove), dirs[d]);
        Served("Push " + d + " to" + p.written + (if p.exit == Normal then "\n" else ""),
               dirs[d := Without(dirs[d], p.removed)], p.pushed, p.exit)
  }

  /** A listable, non-empty directory is served by running the loop over its listing. */
  lemma ServeRuns(
    dirs: map<string, seq<Entry>>, d: string, topic: string, now: int,
    parse: Bytes -> Option<Device>, respond: Notification -> PushOutcome,
    canRemove: (string, string) -> bool)
    requires d in dirs && dirs[d] != []
    ensures var p := Run(Env(d, topic, now, parse, respond, canRemove), dirs[d]);
      Serve(dirs, Some(d), topic, now, parse, respond, canRemove)
        == Served("Push " + d + " to" + p.written + (if p.exit == Normal then "\n" else ""),
                  dirs[d := Without(dirs[d], p.removed)], p.pushed, p.exit)
  {
  }

  /** A request line that cannot be read gets no reply, no push and no removal. */
  lemma ServeUnreadableLine(
    dirs: map<string, seq<Entry>>, topic: string, now: int,
    parse: Bytes -> Option<Device>, respond: Notification -> PushOutcome,
    canRemove: (string, string) -> bool)
    ensures Serve(dirs, None, topic, now, parse, respond, canRemove) == Served("", dirs, [], Normal)
  {
  }

  /** A mailbox whose `.push` directory is missing or empty is reported disabled and nothing is sent or removed. */
  lemma ServeDisabled(
    dirs: map<string, seq<Entry>>, d: string, topic: string, now: int,
    parse: Bytes -> Option<Device>, respond: Notification -> PushOutcome,
    canRemove: (string, string) -> bool)
    requires d !in dirs || dirs[d] == []
    ensures Serve(dirs, Some(d), topic, now, parse, respond, canRemove)
      == Served("Push " + d + " disabled\n", dirs, [], Normal)
  {
  }

  /** A non-empty directory none of whose records decodes is reported with no fragments, not as disabled. */
  lemma ServeNothingDecoded(
    dirs: map<string, seq<Entry>>, d: string, topic: string, now: int,
    parse: Bytes -> Option<Device>, respond: Notification -> PushOutcome,
    canRemove: (string, string) -> bool)
    requires d in dirs && dirs[d] != []
    requires forall k :: 0 <= k < |dirs[d]| ==>
      Decode(Env(d, topic, now, parse, respond, canRemove), dirs[d][k]).None?
    ensures Serve(dirs, Some(d), topic, now, parse, respond, canRemove)
      == Served("Push " + d + " to\n", dirs, [], Normal)
  {
    NothingDecodedNothingDone(Env(d, topic, now, parse, respond, canRemove), dirs[d]);
    WithoutNothing(dirs[d]);
    assert dirs[d := dirs[d]] == dirs;
  }

  /**
   * When every decoded record is delivered the reply is the header, one
   * fragment per record in listing order, and a newline; it reads back
   * into those reports; one notification went to each record; and the
   * directory keeps exactly the entries the pruning rule did not remove.
   */
  lemma ServeCompleted(
    dirs: map<string, seq<Entry>>, d: string, topic: string, now: int,
    parse: Bytes -> Option<Device>, respond: Notification -> PushOutcome,
    canRemove: (string, string) -> bool)
    requires d in dirs && dirs[d] != []
    requires AllDelivered(Env(d, topic, now, parse, respond, canRemove),
                          Subscriptions(Env(d, topic, now, parse, respond, canRemove), dirs[d]))
    ensures var env := Env(d, topic, now, parse, respond, canRemove);
      var subs := Subscriptions(env, dirs[d]);
      var served := Serve(dirs, Some(d), topic, now, parse, respond, canRemove);
      && served.reply == "Push " + d + " to" + Line(Reports(env, subs)) + "\n"
      && ParseLine(Line(Reports(env, subs))) == Some(Reports(env, subs))
      && served.pushed == Notifications(env, subs)
      && served.exit == Normal
      && served.dirs.Keys == dirs.Keys
      && (forall m :: m in dirs && m != d ==> served.dirs[m] == dirs[m])
      && (forall e :: e in served.dirs[d] <==> e in dirs[d] && e.name !in PrunedNames(env, subs))
  {
    var env := Env(d, topic, now, parse, respond, canRemove);
    var subs := Subscriptions(env, dirs[d]);
    RunMatchesSubscriptions(env, dirs[d]);
    assert subs[..|subs|] == subs;
    var rs := Reports(env, subs);
    forall k | 0 <= k < |rs| ensures |rs[k].tokenPrefix| == 8 {
      assert Delivered(env, subs[k]);
    }
    ParseLineRoundTrip(rs);
    WithoutMembers(dirs[d], PrunedNames(env, subs));
  }

  /**
   * When some record is not delivered the request dies: the reply stops
   * after the last fragment written and never gets its newline.
   */
  lemma ServeAborted(
    dirs: map<string, seq<Entry>>, d: string, topic: string, now: int,
    parse: Bytes -> Option<Device>, respond: Notification -> PushOutcome,
    canRemove: (string, string) -> bool)
    requires d in dirs && dirs[d] != []
    requires !AllDelivered(Env(d, topic, now, parse, respond, canRemove),
                           Subscriptions(Env(d, topic, now, parse, respond, canRemove), dirs[d]))
    ensures var served := Serve(dirs, Some(d), topic, now, parse, respond, canRemove);
      served.exit != Normal && |served.reply| > 0 && served.reply[|served.reply| - 1] != '\n'
  {
    var env := Env(d, topic, now, parse, respond, canRemove);
    var subs := Subscriptions(env, dirs[d]);
    RunMatchesSubscriptions(env, dirs[d]);
    var k := Settled(env, subs);
    var rs := Reports(env, subs[..k]);
    LineEnding(rs);
    var reply := "Push " + d + " to" + Line(rs);
    if rs != [] {
      assert reply[|reply| - 1] == Line(rs)[|Line(rs)| - 1];
    } else {
      assert reply[|reply| - 1] == 'o';
    }
  }
}
