/**
 * The handler as the daemon runs it: the connection it reads the request
 * from and writes the reply to, the push client it sends through, and the
 * file system whose `.push` directories it prunes in place.
 */
module Host {
  import opened Wrappers
  import opened Records
  import opened Dispatch
  import opened Pipeline

  /** One accepted connection on the daemon's socket. */
  class Conn {
    /** The request line the caller sent, or None when reading it fails. */
    const line: Option<string>
    /** Everything written to the caller so far. */
    var written: string
    var closed: bool

    constructor (line: Option<string>)
      ensures this.line == line && written == [] && !closed
    {
      this.line := line;
      written := [];
      closed := false;
    }

    method ReadLine() returns (r: Option<string>)
      ensures r == line
    {
      r := line;
    }

    method Write(s: string)
      modifies this
      ensures written == old(written) + s && closed == old(closed)
    {
      written := written + s;
    }

    method Close()
      modifies this
      ensures closed && written == old(written)
    {
      closed := true;
    }
  }

  /** The push client: it answers each notification as `respond` says and keeps what it was sent. */
  class Client {
    const respond: Notification -> PushOutcome
    var sent: seq<Notification>

    constructor (respond: Notification -> PushOutcome)
      ensures this.respond == respond && sent == []
    {
      this.respond := respond;
      sent := [];
    }

    method Push(n: Notification) returns (outcome: PushOutcome)
      modifies this
      ensures sent == old(sent) + [n] && outcome == respond(n)
    {
      sent := sent + [n];
      outcome := respond(n);
    }
  }

  /**
   * The mailboxes' `.push` directories: each mailbox path whose directory
   * can be listed maps to its listing. `canRemove` says whether the file
   * system lets a file of a directory be unlinked.
   */
  class FileSystem {
    var pushDirs: map<string, seq<Entry>>
    const canRemove: (string, string) -> bool

    /** A directory never lists two files under one name. */
    ghost predicate Valid()
      reads this
    {
      forall d :: d in pushDirs ==> DistinctNames(pushDirs[d])
    }

    constructor (pushDirs: map<string, seq<Entry>>, canRemove: (string, string) -> bool)
      requires forall d :: d in pushDirs ==> DistinctNames(pushDirs[d])
      ensures Valid() && this.pushDirs == pushDirs && this.canRemove == canRemove
    {
      this.pushDirs := pushDirs;
      this.canRemove := canRemove;
    }

    /** Lists `<d>/.push`; None when it cannot be listed. */
    method ReadDir(d: string) returns (listing: Option<seq<Entry>>)
      ensures listing == if d in pushDirs then Some(pushDirs[d]) else None
    {
      listing := if d in pushDirs then Some(pushDirs[d]) else None;
    }

    /** Reads `<d>/.push/<name>`; None when it is missing or unreadable. */
    method ReadFile(d: string, name: string) returns (data: Option<Bytes>)
      ensures data == if d in pushDirs && Lookup(pushDirs[d], name).Some?
                      then Lookup(pushDirs[d], name).value.content else None
    {
      if d in pushDirs && Lookup(pushDirs[d], name).Some? {
        data := Lookup(pushDirs[d], name).value.content;
      } else {
        data := None;
      }
    }

    /** Unlinks `<d>/.push/<name>`; fails when it is missing or may not be unlinked. */
    method Remove(d: string, name: string) returns (ok: bool)
      requires Valid()
      modifies this
      ensures Valid()
      ensures ok == (d in old(pushDirs) && Lookup(old(pushDirs)[d], name).Some? && canRemove(d, name))
      ensures pushDirs == if ok then old(pushDirs)[d := Without(old(pushDirs)[d], {name})] else old(pushDirs)
    {
      ok := d in pushDirs && Lookup(pushDirs[d], name).Some? && canRemove(d, name);
      if ok {
        WithoutDistinct(pushDirs[d], {name});
        pushDirs := pushDirs[d := Without(pushDirs[d], {name})];
      }
    }
  }

  /** Unlinking one more file from the listing of `dir` leaves the other directories alone. */
  lemma RemoveFromListing(
    dirs0: map<string, seq<Entry>>, dir: string, es: seq<Entry>, removed: set<string>, name: string)
    ensures dirs0[dir := Without(es, removed)][dir := Without(Without(es, removed), {name})]
      == dirs0[dir := Without(es, removed + {name})]
  {
    WithoutTwice(es, removed, {name});
  }

  lemma FreshName(es: seq<Entry>, i: nat)
    requires DistinctNames(es) && i < |es|
    ensures es[i].name !in Names(es[..i])
  {
  }

  /**
   * One pass of the loop body over entry `es[i]`: read and decode its
   * record and, if that works, deliver to it. Whatever the loop had done
   * before (`p`), it has done `Step(env, p, es[i])` afterwards.
   */
  method HandleEntry(
    conn: Conn, client: Client, fs: FileSystem, dir: string, topic: string, now: int,
    parse: Bytes -> Option<Device>, es: seq<Entry>, i: nat,
    ghost env: Env, ghost p: Progress, ghost dirs0: map<string, seq<Entry>>,
    ghost written0: string, ghost sent0: seq<Notification>)
    returns (exit: Exit)
    requires env == Env(dir, topic, now, parse, client.respond, fs.canRemove)
    requires i < |es| && DistinctNames(es) && p.exit == Normal && p.removed <= Names(es[..i])
    requires fs.Valid() && fs.pushDirs == dirs0[dir := Without(es, p.removed)]
    requires conn.written == written0 + p.written && client.sent == sent0 + p.pushed
    modifies conn, client, fs
    ensures var q := Step(env, p, es[i]);
      && exit == q.exit
      && fs.Valid() && fs.pushDirs == dirs0[dir := Without(es, q.removed)]
      && conn.written == written0 + q.written && client.sent == sent0 + q.pushed
    ensures conn.closed == old(conn.closed)
  {
    var e := es[i];
    FreshName(es, i);
    LookupWithout(es, p.removed, e.name);
    LookupDistinct(es, i);
    var data := fs.ReadFile(dir, e.name);
    if data.None? {
      return Normal;
    }
    var device := parse(data.value);
    if device.None? {
      return Normal;
    }
    exit := DeliverEntry(conn, client, fs, dir, topic, now, es, i, device.value,
                         env, p, dirs0, written0, sent0);
  }

  /**
   * The rest of the loop body once `es[i]` decoded to `device`: push the
   * notification; on a response write the fragment and, when the pruning
   * rule says so, unlink the file. A transport error or a short token
   * ends the request.
   */
  method DeliverEntry(
    conn: Conn, client: Client, fs: FileSystem, dir: string, topic: string, now: int,
    es: seq<Entry>, i: nat, device: Device,
    ghost env: Env, ghost p: Progress, ghost dirs0: map<string, seq<Entry>>,
    ghost written0: string, ghost sent0: seq<Notification>)
    returns (exit: Exit)
    requires env.dir == dir && env.topic == topic && env.now == now
    requires env.respond == client.respond && env.canRemove == fs.canRemove
    requires i < |es| && es[i].name !in p.removed && p.exit == Normal
    requires Lookup(Without(es, p.removed), es[i].name).Some?
    requires fs.Valid() && fs.pushDirs == dirs0[dir := Without(es, p.removed)]
    requires conn.written == written0 + p.written && client.sent == sent0 + p.pushed
    modifies conn, client, fs
    ensures var q := Deliver(env, p, es[i], device);
      && exit == q.exit
      && fs.Valid() && fs.pushDirs == dirs0[dir := Without(es, q.removed)]
      && conn.written == written0 + q.written && client.sent == sent0 + q.pushed
    ensures conn.closed == old(conn.closed)
  {
    var e := es[i];
    var res := client.Push(Notify(topic, now, device));
    if res.TransportError? {
      return FatalLog;
    }
    if |device.deviceToken| < 8 {
      return Panic;
    }
    exit := ReportAndPruneEntry(conn, fs, dir, es, i, device.deviceToken, res.statusCode, res.timestamp,
                                env, p.(pushed := p.pushed + [Notify(topic, now, device)]),
                                dirs0, written0, sent0);
  }

  /**
   * The response part of the loop body: write the fragment for the
   * response and, when the pruning rule says so, unlink the file.
   */
  method ReportAndPruneEntry(
    conn: Conn, fs: FileSystem, dir: string, es: seq<Entry>, i: nat,
    token: string, status: int, timestamp: int,
    ghost env: Env, ghost p: Progress, ghost dirs0: map<string, seq<Entry>>,
    ghost written0: string, ghost sent0: seq<Notification>)
    returns (exit: Exit)
    requires env.dir == dir && env.canRemove == fs.canRemove && |token| >= 8
    requires i < |es| && es[i].name !in p.removed && p.exit == Normal
    requires Lookup(Without(es, p.removed), es[i].name).Some?
    requires fs.Valid() && fs.pushDirs == dirs0[dir := Without(es, p.removed)]
    requires conn.written == written0 + p.written
    modifies conn, fs
    ensures var q := ReportAndPrune(env, p, es[i], token, status, timestamp);
      && exit == q.exit
      && fs.Valid() && fs.pushDirs == dirs0[dir := Without(es, q.removed)]
      && conn.written == written0 + q.written
    ensures conn.closed == old(conn.closed)
  {
    ghost var q := ReportAndPrune(env, p, es[i], token, status, timestamp);
    assert q.removed == if ShouldRemove(status, es[i].modTime, timestamp) && fs.canRemove(dir, es[i].name)
                        then p.removed + {es[i].name} else p.removed;
    conn.Write(Fragment(Report(token[..8], status)));
    if ShouldRemove(status, es[i].modTime, timestamp) {
      PruneEntry(fs, dir, es, i, p.removed, dirs0);
    }
    return Normal;
  }

  /**
   * Unlinks entry `es[i]` from `<dir>/.push`, where the files named in
   * `removed` are already gone; the outcome is ignored, so a file that may
   * not be unlinked simply stays listed.
   */
  method PruneEntry(
    fs: FileSystem, dir: string, es: seq<Entry>, i: nat,
    ghost removed: set<string>, ghost dirs0: map<string, seq<Entry>>)
    requires i < |es| && Lookup(Without(es, removed), es[i].name).Some?
    requires fs.Valid() && fs.pushDirs == dirs0[dir := Without(es, removed)]
    modifies fs
    ensures fs.Valid()
    ensures fs.pushDirs == dirs0[dir := Without(es, if fs.canRemove(dir, es[i].name) then removed + {es[i].name} else removed)]
  {
    RemoveFromListing(dirs0, dir, es, removed, es[i].name);
    var ok := fs.Remove(dir, es[i].name);
    assert ok == fs.canRemove(dir, es[i].name);
  }

  /**
   * The loop body over entry `es[i]`, stated against the loop over the
   * entries before it and the loop over the entries up to it.
   */
  method Advance(
    conn: Conn, client: Client, fs: FileSystem, dir: string, topic: string, now: int,
    parse: Bytes -> Option<Device>, es: seq<Entry>, i: nat,
    ghost env: Env, ghost dirs0: map<string, seq<Entry>>, ghost written0: string, ghost sent0: seq<Notification>)
    returns (exit: Exit)
    requires env == Env(dir, topic, now, parse, client.respond, fs.canRemove)
    requires i < |es| && DistinctNames(es) && Run(env, es[..i]).exit == Normal
    requires fs.Valid() && fs.pushDirs == dirs0[dir := Without(es, Run(env, es[..i]).removed)]
    requires conn.written == written0 + Run(env, es[..i]).written
    requires client.sent == sent0 + Run(env, es[..i]).pushed
    modifies conn, client, fs
    ensures var q := Run(env, es[..i + 1]);
      && exit == q.exit
      && fs.Valid() && fs.pushDirs == dirs0[dir := Without(es, q.removed)]
      && conn.written == written0 + q.written && client.sent == sent0 + q.pushed
    ensures exit != Normal ==> Run(env, es) == Run(env, es[..i + 1])
    ensures conn.closed == old(conn.closed)
  {
    ghost var p := Run(env, es[..i]);
    RemovedAreListed(env, es[..i]);
    RunPrefixStep(env, es, i);
    exit := HandleEntry(conn, client, fs, dir, topic, now, parse, es, i, env, p, dirs0, written0, sent0);
    if exit != Normal {
      HaltAt(env, es, i);
    }
  }

  /**
   * The loop over the listing `es` of `<dir>/.push`, after the header has
   * been written: it leaves the connection, the client and the directory
   * as `Run` says, and stops at the first entry that ends the request.
   */
  method HandleEntries(
    conn: Conn, client: Client, fs: FileSystem, dir: string, topic: string, now: int,
    parse: Bytes -> Option<Device>, es: seq<Entry>)
    returns (exit: Exit)
    requires dir in fs.pushDirs && es == fs.pushDirs[dir] && fs.Valid()
    modifies conn, client, fs
    ensures var p := Run(Env(dir, topic, now, parse, client.respond, fs.canRemove), es);
      && exit == p.exit
      && fs.Valid() && fs.pushDirs == old(fs.pushDirs)[dir := Without(es, p.removed)]
      && conn.written == old(conn.written) + p.written
      && client.sent == old(client.sent) + p.pushed
    ensures conn.closed == old(conn.closed)
  {
    ghost var env := Env(dir, topic, now, parse, client.respond, fs.canRemove);
    ghost var dirs0, written0, sent0 := fs.pushDirs, conn.written, client.sent;
    WithoutNothing(es);
    assert dirs0[dir := es] == dirs0;
    assert es[..0] == [];
    var i := 0;
    while i < |es|
      invariant 0 <= i <= |es| && DistinctNames(es) && Run(env, es[..i]).exit == Normal
      invariant fs.Valid() && fs.pushDirs == dirs0[dir := Without(es, Run(env, es[..i]).removed)]
      invariant conn.written == written0 + Run(env, es[..i]).written
      invariant client.sent == sent0 + Run(env, es[..i]).pushed
      invariant conn.closed == old(conn.closed)
    {
      exit := Advance(conn, client, fs, dir, topic, now, parse, es, i, env, dirs0, written0, sent0);
      if exit != Normal {
        return;
      }
      i := i + 1;
    }
    assert es[..|es|] == es;
    return Normal;
  }

  /**
   * Everything after a non-empty listing `es` of `<dir>/.push` was read:
   * the header, the loop, and then the newline and closing the connection
   * if the request is still alive (only the panic's deferred close when
   * it is not; `log.Fatal` closes nothing).
   */
  method HandleListing(
    conn: Conn, client: Client, fs: FileSystem, dir: string, topic: string, now: int,
    parse: Bytes -> Option<Device>, es: seq<Entry>)
    returns (exit: Exit)
    requires dir in fs.pushDirs && es == fs.pushDirs[dir] && fs.Valid()
    modifies conn, client, fs
    ensures var p := Run(Env(dir, topic, now, parse, client.respond, fs.canRemove), es);
      && exit == p.exit
      && fs.Valid() && fs.pushDirs == old(fs.pushDirs)[dir := Without(es, p.removed)]
      && conn.written == old(conn.written) + ("Push " + dir + " to" + p.written + (if p.exit == Normal then "\n" else ""))
      && client.sent == old(client.sent) + p.pushed
    ensures conn.closed == (exit != FatalLog || old(conn.closed))
  {
    conn.Write("Push " + dir + " to");
    exit := HandleEntries(conn, client, fs, dir, topic, now, parse, es);
    Finish(conn, exit);
  }

  /**
   * The end of a request that got past the listing: the newline and the
   * deferred close when every entry was handled, only the deferred close
   * after a panic, and nothing at all after `log.Fatal`.
   */
  method Finish(conn: Conn, exit: Exit)
    modifies conn
    ensures conn.written == old(conn.written) + (if exit == Normal then "\n" else "")
    ensures conn.closed == (exit != FatalLog || old(conn.closed))
  {
    if exit == FatalLog {
      return;
    }
    if exit == Normal {
      conn.Write("\n");
    }
    conn.Close();
  }

  /**
   * Serves one connection: reads the mailbox path, lists its `.push`
   * directory and handles each entry in listing order. The reply, the
   * notifications sent and the directories afterwards are those `Serve`
   * gives for the directories as they were. The connection is closed on
   * every exit except `log.Fatal`, which ends the process without running
   * deferred calls.
   */
  method HandleRequest(
    conn: Conn, client: Client, fs: FileSystem, topic: string, now: int,
    parse: Bytes -> Option<Device>)
    returns (exit: Exit)
    requires fs.Valid()
    modifies conn, client, fs
    ensures fs.Valid()
    ensures var served := Serve(old(fs.pushDirs), conn.line, topic, now, parse, client.respond, fs.canRemove);
      && conn.written == old(conn.written) + served.reply
      && client.sent == old(client.sent) + served.pushed
      && fs.pushDirs == served.dirs
      && exit == served.exit
    ensures conn.closed == (exit != FatalLog || old(conn.closed))
  {
    var line := conn.ReadLine();
    if line.None? {
      ServeUnreadableLine(fs.pushDirs, topic, now, parse, client.respond, fs.canRemove);
      conn.Close();
      return Normal;
    }
    var dir := line.value;
    var files := fs.ReadDir(dir);
    if files.None? || |files.value| == 0 {
      ServeDisabled(fs.pushDirs, dir, topic, now, parse, client.respond, fs.canRemove);
      conn.Write("Push " + dir + " disabled\n");
      conn.Close();
      return Normal;
    }
    ServeRuns(fs.pushDirs, dir, topic, now, parse, client.respond, fs.canRemove);
    exit := HandleListing(conn, client, fs, dir, topic, now, parse, files.value);
  }
}
