/**
 * The pure pieces of one dispatch: the notification built for a device,
 * the fragment the reply line gets for its response, and the rule that
 * decides whether the subscription file is pruned.
 */
module Dispatch {
  import opened Wrappers
  import opened Records
  import opened Decimal

  /** Go's `time.Hour`, in nanoseconds. */
  const Hour: int := 3_600_000_000_000

  /** How long after sending a notification stays deliverable: one week. */
  const ExpiryWindow: int := 24 * Hour * 7

  const PayloadHead: string := "{ \"aps\": { \"account-id\": \""
  const PayloadTail: string := "\" }}"

  /** The notification payload; the account id goes in verbatim, unescaped. */
  function Payload(accountId: string): string {
    PayloadHead + accountId + PayloadTail
  }

  /** The account id a payload carries, if it has the payload's shape. */
  function AccountIdOf(payload: string): Option<string> {
    if |payload| >= |PayloadHead| + |PayloadTail|
       && payload[..|PayloadHead|] == PayloadHead
       && payload[|payload| - |PayloadTail|..] == PayloadTail
    then Some(payload[|PayloadHead|..|payload| - |PayloadTail|])
    else None
  }

  /** The payload delivers the account id exactly as the record holds it. */
  lemma PayloadCarriesAccountId(accountId: string)
    ensures AccountIdOf(Payload(accountId)) == Some(accountId)
  {
    var p := Payload(accountId);
    assert p[..|PayloadHead|] == PayloadHead;
    assert p[|p| - |PayloadTail|..] == PayloadTail;
    assert p[|PayloadHead|..|p| - |PayloadTail|] == accountId;
  }

  /** The notification sent to `device` by a process holding `topic` at time `now`. */
  function Notify(topic: string, now: int, device: Device): Notification {
    Notification(topic, device.deviceToken, now + ExpiryWindow, Payload(device.accountId))
  }

  /**
   * Every notification targets the record's token under the process
   * topic, expires one week after it is built, and tells the device
   * which account has new mail.
   */
  lemma NotifyFields(topic: string, now: int, device: Device)
    ensures var n := Notify(topic, now, device);
      && n.topic == topic
      && n.deviceToken == device.deviceToken
      && n.expiration == now + 7 * 24 * 3600 * 1_000_000_000
      && AccountIdOf(n.payload) == Some(device.accountId)
  {
    PayloadCarriesAccountId(device.accountId);
  }

  /**
   * The pruning rule: a 400 removes the subscription file whatever its
   * age; a 410 removes it only when the file is older than the instant the
   * service reports the token became invalid; any other status keeps it.
   */
  function ShouldRemove(status: int, modTime: int, timestamp: int): (remove: bool)
    ensures status == 400 ==> remove
    ensures status == 410 ==> (remove <==> modTime < timestamp)
    ensures status != 400 && status != 410 ==> !remove
  {
    status == 400 || (status == 410 && modTime < timestamp)
  }

  /** What the reply line says about one device: its token's first 8 bytes and the status. */
  datatype Report = Report(tokenPrefix: string, status: int)

  function Fragment(r: Report): string {
    " " + r.tokenPrefix + " (" + Show(r.status) + ")"
  }

  /** The fragments of a sequence of reports, in order. */
  function Line(rs: seq<Report>): string
    decreases |rs|
  {
    if rs == [] then "" else Fragment(rs[0]) + Line(rs[1..])
  }

  lemma {:induction false} LineAppend(rs: seq<Report>, r: Report)
    ensures Line(rs + [r]) == Line(rs) + Fragment(r)
    decreases |rs|
  {
    if rs == [] {
      assert [r][1..] == [];
    } else {
      assert (rs + [r])[0] == rs[0];
      assert (rs + [r])[1..] == rs[1..] + [r];
      LineAppend(rs[1..], r);
    }
  }

  /** A fragment line is empty or ends with a closing parenthesis. */
  lemma {:induction false} LineEnding(rs: seq<Report>)
    ensures Line(rs) == [] <==> rs == []
    ensures rs != [] ==> Line(rs)[|Line(rs)| - 1] == ')'
    decreases |rs|
  {
    if rs != [] {
      LineEnding(rs[1..]);
    }
  }

  /** The index of the first ')' of `s` at or after `from`, or |s| if there is none. */
  function CloseParen(s: string, from: nat): (j: nat)
    requires from <= |s|
    ensures from <= j <= |s|
    ensures j < |s| ==> s[j] == ')'
    ensures forall k :: from <= k < j ==> s[k] != ')'
    decreases |s| - from
  {
    if from == |s| || s[from] == ')' then from else CloseParen(s, from + 1)
  }

  /** Reads the first fragment off `s`: its report and the text after it. */
  function ParseFragment(s: string): (r: Option<(Report, string)>)
    ensures r.Some? ==> |r.value.1| < |s|
  {
    if |s| < 12 || s[0] != ' ' || s[9..11] != " (" then None
    else
      var j := CloseParen(s, 11);
      if j == |s| then None
      else match Read(s[11..j])
        case Some(status) => Some((Report(s[1..9], status), s[j + 1..]))
        case None => None
  }

  /** Reads the fragments of a reply line back into reports. */
  function ParseLine(s: string): Option<seq<Report>>
    decreases |s|
  {
    if s == [] then Some([])
    else match ParseFragment(s)
      case None => None
      case Some((r, rest)) =>
        match ParseLine(rest)
        case None => None
        case Some(rs) => Some([r] + rs)
  }

  /** Where the parts of a fragment sit when it is followed by more text. */
  lemma FragmentLayout(r: Report, rest: string)
    requires |r.tokenPrefix| == 8
    ensures var s, m := Fragment(r) + rest, 11 + |Show(r.status)|;
      && |s| == m + 1 + |rest| && s[0] == ' ' && s[1..9] == r.tokenPrefix && s[9..11] == " ("
      && s[11..m] == Show(r.status) && s[m] == ')' && s[m + 1..] == rest
  {
    var head := " " + r.tokenPrefix + " (";
    var num := Show(r.status);
    var s := Fragment(r) + rest;
    assert s == head + num + ")" + rest;
    assert s == head + (num + (")" + rest));
    assert s[..11] == head;
    assert s[11..] == num + (")" + rest);
    assert s[11..][|num|..] == ")" + rest;
  }

  /** In a fragment, the first ')' after the opening parenthesis is the one that closes it. */
  lemma FragmentCloses(r: Report, rest: string)
    requires |r.tokenPrefix| == 8
    ensures var s := Fragment(r) + rest;
      |s| >= 12 && CloseParen(s, 11) == 11 + |Show(r.status)|
  {
    var s, num := Fragment(r) + rest, Show(r.status);
    var m := 11 + |num|;
    FragmentLayout(r, rest);
    forall k | 11 <= k < m
      ensures s[k] != ')'
    {
      assert s[k] == s[11..m][k - 11];
      NumeralChars(num, k - 11);
    }
  }

  /** A fragment reads back into its report, leaving the text after it. */
  lemma ParseFragmentOf(r: Report, rest: string)
    requires |r.tokenPrefix| == 8
    ensures ParseFragment(Fragment(r) + rest) == Some((r, rest))
  {
    FragmentLayout(r, rest);
    FragmentCloses(r, rest);
    ReadShow(r.status);
  }

  /** If the fragments after the first report read back, so do all of them. */
  lemma ParseLineCons(rs: seq<Report>)
    requires rs != [] && |rs[0].tokenPrefix| == 8 && ParseLine(Line(rs[1..])) == Some(rs[1..])
    ensures ParseLine(Line(rs)) == Some(rs)
  {
    var rest := Line(rs[1..]);
    assert Line(rs) == Fragment(rs[0]) + rest;
    ParseFragmentOf(rs[0], rest);
    assert [rs[0]] + rs[1..] == rs;
  }

  /**
   * The fragments are unambiguous: because every token prefix is exactly
   * 8 bytes long, the line can be read back into the reports it was
   * written from, even when a token holds spaces or parentheses.
   */
  lemma {:induction false} ParseLineRoundTrip(rs: seq<Report>)
    requires forall k :: 0 <= k < |rs| ==> |rs[k].tokenPrefix| == 8
    ensures ParseLine(Line(rs)) == Some(rs)
    decreases |rs|
  {
    if rs != [] {
      ParseLineRoundTrip(rs[1..]);
      ParseLineCons(rs);
    }
  }
}
