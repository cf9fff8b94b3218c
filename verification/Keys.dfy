/**
 The string keys of the caches and of the exported series: numbers in decimal,
 joined by ':' and taken apart again with strings.Split.
 */
module Keys {
  import opened Base

  function Digit(d: nat): char
    requires d < 10
  {
    ('0' as int + d) as char
  }

  /** strconv.FormatUint(n, 10), and "%d" of an unsigned value. */
  function FormatUint(n: nat): (s: string)
    ensures |s| >= 1
    ensures forall i :: 0 <= i < |s| ==> '0' <= s[i] <= '9'
  {
    if n < 10 then [Digit(n)] else FormatUint(n / 10) + [Digit(n % 10)]
  }

  /** strconv.Itoa. */
  function Itoa(i: int): string {
    if i < 0 then "-" + FormatUint(-i) else FormatUint(i)
  }

  /** The number a string of digits stands for. */
  function ParseUint(s: string): nat
    requires forall i :: 0 <= i < |s| ==> '0' <= s[i] <= '9'
  {
    if s == [] then 0 else 10 * ParseUint(s[..|s| - 1]) + (s[|s| - 1] as int - '0' as int)
  }

  lemma {:induction false} ParseFormat(n: nat)
    ensures ParseUint(FormatUint(n)) == n
  {
    if n < 10 {
    } else {
      ParseFormat(n / 10);
      assert FormatUint(n)[..|FormatUint(n)| - 1] == FormatUint(n / 10);
    }
  }

  /** No leading zeros. */
  lemma {:induction false} FormatUintFirst(n: nat)
    ensures FormatUint(n)[0] == '0' <==> n == 0
    ensures n < 10 <==> |FormatUint(n)| == 1
  {
    if n < 10 {
    } else {
      FormatUintFirst(n / 10);
    }
  }

  lemma FormatUintInjective(a: nat, b: nat)
    ensures FormatUint(a) == FormatUint(b) <==> a == b
  {
    ParseFormat(a);
    ParseFormat(b);
  }

  lemma ItoaSign(i: int)
    ensures Itoa(i) != [] && (Itoa(i)[0] == '-' <==> i < 0)
    ensures i < 0 ==> Itoa(i)[1..] == FormatUint(-i)
  {
  }

  lemma ItoaInjective(a: int, b: int)
    ensures Itoa(a) == Itoa(b) <==> a == b
  {
    if Itoa(a) == Itoa(b) {
      ItoaSign(a);
      ItoaSign(b);
      if a < 0 {
        FormatUintInjective(-a, -b);
      } else {
        FormatUintInjective(a, b);
      }
    }
  }

  /** strings.Split for a one-character separator. */
  function Split(s: string, sep: char): (parts: seq<string>)
    ensures |parts| >= 1
  {
    if s == [] then [""]
    else
      var rest := Split(s[1..], sep);
      if s[0] == sep then [""] + rest else [[s[0]] + rest[0]] + rest[1..]
  }

  function Join(parts: seq<string>, sep: char): string
    requires |parts| >= 1
  {
    if |parts| == 1 then parts[0] else parts[0] + [sep] + Join(parts[1..], sep)
  }

  lemma {:induction false} SplitHead(head: string, tail: string, sep: char)
    requires sep !in head
    ensures Split(head + [sep] + tail, sep) == [head] + Split(tail, sep)
    ensures Split(head, sep) == [head]
  {
    var s := head + [sep] + tail;
    if head == "" {
      assert s[1..] == tail;
    } else {
      assert s[1..] == head[1..] + [sep] + tail;
      assert [head[0]] + head[1..] == head;
      SplitHead(head[1..], tail, sep);
    }
  }

  lemma {:induction false} SplitJoin(parts: seq<string>, sep: char)
    requires |parts| >= 1
    requires forall i :: 0 <= i < |parts| ==> sep !in parts[i]
    ensures Split(Join(parts, sep), sep) == parts
  {
    if |parts| == 1 {
      SplitHead(parts[0], "", sep);
    } else {
      SplitJoin(parts[1..], sep);
      SplitHead(parts[0], Join(parts[1..], sep), sep);
    }
  }

  /** The fields that identify a stream message for the duplicate filter. */
  datatype Identity =
    | Damaku(room: uint64, uid: uint64, time: uint64)
    | Gift(tid: uint64)
    | Guard(uid: uint64, time: uint64)
    | SuperChat(uid: uint64, time: uint64)

  function TypeName(m: Identity): string {
    match m
    case Damaku(_, _, _) => "damaku"
    case Gift(_) => "gift"
    case Guard(_, _) => "guard"
    case SuperChat(_, _) => "superChat"
  }

  function KeyParts(m: Identity): (parts: seq<string>)
    ensures |parts| >= 2
  {
    match m
    case Damaku(room, uid, time) => [TypeName(m), FormatUint(room), FormatUint(uid), FormatUint(time)]
    case Gift(tid) => [TypeName(m), FormatUint(tid)]
    case Guard(uid, time) => [TypeName(m), FormatUint(uid), FormatUint(time)]
    case SuperChat(uid, time) => [TypeName(m), FormatUint(uid), FormatUint(time)]
  }

  /** Key of the duplicate cache: [msgType]:[msgUniqueKey]. */
  function DedupKey(m: Identity): string {
    Join(KeyParts(m), ':')
  }

  /** The keys as the worker spells them. */
  lemma DamakuKeyFormat(room: uint64, uid: uint64, time: uint64)
    ensures DedupKey(Damaku(room, uid, time)) ==
            "damaku" + ":" + FormatUint(room) + ":" + FormatUint(uid) + ":" + FormatUint(time)
  {
    Join4("damaku", FormatUint(room), FormatUint(uid), FormatUint(time));
  }

  lemma GiftKeyFormat(tid: uint64)
    ensures DedupKey(Gift(tid)) == "gift" + ":" + FormatUint(tid)
  {
    Join2("gift", FormatUint(tid));
  }

  lemma GuardKeyFormat(uid: uint64, time: uint64)
    ensures DedupKey(Guard(uid, time)) == "guard" + ":" + FormatUint(uid) + ":" + FormatUint(time)
  {
    Join3("guard", FormatUint(uid), FormatUint(time));
  }

  lemma SuperChatKeyFormat(uid: uint64, time: uint64)
    ensures DedupKey(SuperChat(uid, time)) == "superChat" + ":" + FormatUint(uid) + ":" + FormatUint(time)
  {
    Join3("superChat", FormatUint(uid), FormatUint(time));
  }

  lemma Join2(a: string, b: string)
    ensures Join([a, b], ':') == a + ":" + b
  {
    assert [a, b][1..] == [b];
  }

  lemma Join3(a: string, b: string, c: string)
    ensures Join([a, b, c], ':') == a + ":" + b + ":" + c
  {
    assert [a, b, c][1..] == [b, c];
    Join2(b, c);
  }

  lemma Join4(a: string, b: string, c: string, d: string)
    ensures Join([a, b, c, d], ':') == a + ":" + b + ":" + c + ":" + d
  {
    assert [a, b, c, d][1..] == [b, c, d];
    Join3(b, c, d);
    assert a + ":" + (b + ":" + c + ":" + d) == a + ":" + b + ":" + c + ":" + d;
  }

  /** What dupCacheRelease reads back out of a key: m[0], when there are at least two parts. */
  function KeyCategory(key: string): Option<string> {
    var m := Split(key, ':');
    if |m| < 2 then None else Some(m[0])
  }

  lemma KeyRoundTrip(m: Identity)
    ensures Split(DedupKey(m), ':') == KeyParts(m)
    ensures KeyCategory(DedupKey(m)) == Some(TypeName(m))
  {
    SplitJoin(KeyParts(m), ':');
  }

  /** The four categories an entry can be counted under. */
  lemma Categories(m: Identity)
    ensures KeyCategory(DedupKey(m)) == Some("damaku") <==> m.Damaku?
    ensures KeyCategory(DedupKey(m)) == Some("gift") <==> m.Gift?
    ensures KeyCategory(DedupKey(m)) == Some("guard") <==> m.Guard?
    ensures KeyCategory(DedupKey(m)) == Some("superChat") <==> m.SuperChat?
  {
    KeyRoundTrip(m);
    assert "damaku"[0] != "gift"[0] && "damaku"[0] != "guard"[0] && "damaku"[0] != "superChat"[0];
    assert "gift"[1] != "guard"[1] && "gift"[0] != "superChat"[0] && "guard"[0] != "superChat"[0];
  }

  /** Equal keys exactly for equal type and equal identity fields. */
  lemma DedupKeyInjective(a: Identity, b: Identity)
    ensures DedupKey(a) == DedupKey(b) <==> a == b
  {
    if DedupKey(a) == DedupKey(b) {
      KeyRoundTrip(a);
      KeyRoundTrip(b);
      var p, q := KeyParts(a), KeyParts(b);
      assert p == q;
      assert TypeName(a) == p[0] == q[0] == TypeName(b);
      match a {
        case Damaku(r, u, t) =>
          FormatUintInjective(r, b.room); FormatUintInjective(u, b.uid); FormatUintInjective(t, b.time);
        case Gift(t) => FormatUintInjective(t, b.tid);
        case Guard(u, t) => FormatUintInjective(u, b.uid); FormatUintInjective(t, b.time);
        case SuperChat(u, t) => FormatUintInjective(u, b.uid); FormatUintInjective(t, b.time);
      }
    }
  }

  /** Key of the medal caches. */
  function MedalKey(uid: uint64, roomUid: uint64): string {
    Join([FormatUint(uid), FormatUint(roomUid)], ':')
  }

  lemma MedalKeyInjective(uid: uint64, roomUid: uint64, uid': uint64, roomUid': uint64)
    ensures MedalKey(uid, roomUid) == MedalKey(uid', roomUid') <==> uid == uid' && roomUid == roomUid'
  {
    var p, q := [FormatUint(uid), FormatUint(roomUid)], [FormatUint(uid'), FormatUint(roomUid')];
    SplitJoin(p, ':');
    SplitJoin(q, ':');
    FormatUintInjective(uid, uid');
    FormatUintInjective(roomUid, roomUid');
    if MedalKey(uid, roomUid) == MedalKey(uid', roomUid') {
      assert p[0] == q[0] && p[1] == q[1];
    }
  }

  lemma MedalKeyFormat(uid: uint64, roomUid: uint64)
    ensures MedalKey(uid, roomUid) == FormatUint(uid) + ":" + FormatUint(roomUid)
  {
    Join2(FormatUint(uid), FormatUint(roomUid));
  }
}
