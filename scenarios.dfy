/**
 * Requests over a mailbox holding a single subscription: the reply and
 * the directory afterwards for any response, and then a concrete run in
 * which status 200 keeps the subscription, 410 for a file older than the
 * service's timestamp removes it, and the mailbox is then reported
 * disabled.
 */
module Scenarios {
  import opened Wrappers
  import opened Records
  import opened Decimal
  import opened Dispatch
  import opened Pipeline
  import opened Host

  /** Serving a mailbox whose only subscription decodes and gets a response. */
  lemma ServeOneRecord(
    dirs: map<string, seq<Entry>>, d: string, e: Entry, device: Device, topic: string, now: int,
    parse: Bytes -> Option<Device>, respond: Notification -> PushOutcome,
    canRemove: (string, string) -> bool, status: int, reason: string, timestamp: int)
    requires d in dirs && dirs[d] == [e]
    requires e.content.Some? && parse(e.content.value) == Some(device) && |device.deviceToken| >= 8
    requires respond(Notify(topic, now, device)) == Response(status, reason, timestamp)
    ensures var served := Serve(dirs, Some(d), topic, now, parse, respond, canRemove);
      && served.reply == "Push " + d + " to" + Fragment(Report(device.deviceToken[..8], status)) + "\n"
      && served.dirs == dirs[d := if ShouldRemove(status, e.modTime, timestamp) && canRemove(d, e.name)
                                 then [] else [e]]
      && served.pushed == [Notify(topic, now, device)]
      && served.exit == Normal
  {
    var env := Env(d, topic, now, parse, respond, canRemove);
    var removed := ShouldRemove(status, e.modTime, timestamp) && canRemove(d, e.name);
    var gone: set<string> := if removed then {e.name} else {};
    var frag := Fragment(Report(device.deviceToken[..8], status));
    assert Decode(env, e) == Some(device);
    assert Step(env, Start, e) == Progress("" + frag, [] + [Notify(topic, now, device)], {} + gone, Normal);
    assert "" + frag == frag && [] + [Notify(topic, now, device)] == [Notify(topic, now, device)];
    assert [e][..0] == [];
    assert Run(env, [e]) == Progress(frag, [Notify(topic, now, device)], gone, Normal);
    assert [e][1..] == [];
    assert Without([e], gone) == if removed then [] else [e];
    ServeRuns(dirs, d, topic, now, parse, respond, canRemove);
  }

  const Mailbox: string := "/var/mail/u1"
  /** The record the IMAP server stores for device `U1`. */
  const Record: Bytes :=
    Ascii("{\"aps-account-id\":\"acct1\",\"aps-device-token\":\"deadbeef01020304\",\"mailboxes\":[\"INBOX\"]}")
  const U1: Device := Device("acct1", "deadbeef01020304", ["INBOX"])
  const Sub1: Entry := Entry("sub1", 1000, Some(Record))

  /** The fragment the scenario below writes for status 200. */
  lemma Fragment200()
    ensures Fragment(Report("deadbeef", 200)) == " deadbeef (200)"
  {
    assert Show(200) == "200";
  }

  /** The fragment the scenario below writes for status 410. */
  lemma Fragment410()
    ensures Fragment(Report("deadbeef", 410)) == " deadbeef (410)"
  {
    assert Show(410) == "410";
  }

  /**
   * A mailbox whose only subscription `Sub1` decodes: status 200 reports
   * it and keeps the file; a later 410 with a timestamp after the file's
   * modification time reports it and removes the file; the request after
   * that finds the mailbox disabled.
   */
  lemma DeliverThenExpire(parse: Bytes -> Option<Device>, canRemove: (string, string) -> bool)
    requires parse(Record) == Some(U1) && canRemove(Mailbox, "sub1")
    ensures var dirs := map[Mailbox := [Sub1]];
      var first := Serve(dirs, Some(Mailbox), "topic", 0, parse, n => Response(200, "", 0), canRemove);
      var second := Serve(first.dirs, Some(Mailbox), "topic", 0, parse, n => Response(410, "Unregistered", 2000), canRemove);
      var third := Serve(second.dirs, Some(Mailbox), "topic", 0, parse, n => Response(410, "Unregistered", 2000), canRemove);
      && first.reply == "Push " + Mailbox + " to" + Fragment(Report("deadbeef", 200)) + "\n"
      && first.dirs == dirs
      && second.reply == "Push " + Mailbox + " to" + Fragment(Report("deadbeef", 410)) + "\n"
      && second.dirs == map[Mailbox := []]
      && third.reply == "Push " + Mailbox + " disabled\n" && third.pushed == []
  {
    var dirs := map[Mailbox := [Sub1]];
    assert U1.deviceToken[..8] == "deadbeef";
    ServeOneRecord(dirs, Mailbox, Sub1, U1, "topic", 0, parse,
                   n => Response(200, "", 0), canRemove, 200, "", 0);
    assert dirs[Mailbox := [Sub1]] == dirs;
    ServeOneRecord(dirs, Mailbox, Sub1, U1, "topic", 0, parse,
                   n => Response(410, "Unregistered", 2000), canRemove, 410, "Unregistered", 2000);
  }
}
