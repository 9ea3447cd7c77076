/** Message framing: what is sent arrives as it was sent, however the bytes are cut up on the way. */
module Framing {
  import opened Bytes
  import opened Radix
  import opened Stream

  const START_SIZE := 4
  const COMMAND_SIZE := 12
  const SIZE_OFFSET := 16
  const CHECKSUM_OFFSET := 20
  const HEADER_SIZE := 24
  const MAX_SIZE := 0x0200_0000

  /** The network's message start and the hash the checksum is taken from. */
  datatype Net = Net(start: Data, hash: Data -> Data)

  /** A hash has at least the four bytes of the checksum. */
  ghost predicate Usable(net: Net) {
    |net.start| == START_SIZE && forall d :: |net.hash(d)| >= 4
  }

  datatype Message = Message(command: Data, payload: Data)

  predicate Printable(b: Byte) {
    0x20 <= b <= 0x7e
  }

  // Headers

  /** strncpy into the command field: cut off or padded with zeros. */
  function Padded(command: Data): (f: Data)
    ensures |f| == COMMAND_SIZE
  {
    seq(COMMAND_SIZE, i requires 0 <= i < COMMAND_SIZE => if i < |command| then command[i] else 0)
  }

  function SizeBytes(n: nat): (d: Data)
    ensures |d| == 4
  {
    var s := Fixed(n, 256, 4);
    seq(4, i requires 0 <= i < 4 => s[i] as int)
  }

  function Header(net: Net, command: Data, size: nat, checksum: Data): Data {
    net.start + Padded(command) + SizeBytes(size) + checksum
  }

  function Checksum(net: Net, payload: Data): Data
    requires |net.hash(payload)| >= 4
  {
    net.hash(payload)[..4]
  }

  /** The bytes of a whole message. */
  function Frame(net: Net, m: Message): Data
    requires |net.hash(m.payload)| >= 4
  {
    Header(net, m.command, |m.payload|, Checksum(net, m.payload)) + m.payload
  }

  function SizeOf(header: Data): nat
    requires |header| == HEADER_SIZE
  {
    Value(header[SIZE_OFFSET..CHECKSUM_OFFSET], 256)
  }

  function CommandField(header: Data): Data
    requires |header| == HEADER_SIZE
  {
    header[START_SIZE..SIZE_OFFSET]
  }

  /** Up to the first zero. */
  function UpToZero(d: Data): (c: Data)
    ensures |c| <= |d| && c == d[..|c|] && (forall i :: 0 <= i < |c| ==> c[i] != 0) && (|c| < |d| ==> d[|c|] == 0)
  {
    if d == [] || d[0] == 0 then [] else [d[0]] + UpToZero(d[1..])
  }

  /** GetCommand */
  function GetCommand(header: Data): Data
    requires |header| == HEADER_SIZE
  {
    var f := CommandField(header);
    if f[COMMAND_SIZE - 1] == 0 then UpToZero(f) else f
  }

  /** Printable up to the first zero, zeros from there. */
  ghost predicate CommandOk(f: Data) {
    exists k :: 0 <= k <= |f| && CommandEnds(f, k)
  }

  predicate CommandEnds(f: Data, k: int)
    requires 0 <= k <= |f|
  {
    (forall i :: 0 <= i < k ==> Printable(f[i])) && (forall i :: k <= i < |f| ==> f[i] == 0)
  }

  ghost predicate ValidHeader(net: Net, header: Data)
    requires |header| == HEADER_SIZE
  {
    header[..START_SIZE] == net.start && CommandOk(CommandField(header)) && SizeOf(header) <= MAX_SIZE
  }

  /** IsValid, with its scan of the command. */
  method IsValid(net: Net, header: Data) returns (ok: bool)
    requires |header| == HEADER_SIZE
    ensures ok <==> ValidHeader(net, header)
  {
    if header[..START_SIZE] != net.start {
      return false;
    }
    ok := ScanCommand(CommandField(header));
    if !ok {
      return;
    }
    ok := SizeOf(header) <= MAX_SIZE;
  }

  method ScanCommand(f: Data) returns (ok: bool)
    ensures ok <==> CommandOk(f)
  {
    var p := 0;
    while p < |f|
      invariant 0 <= p <= |f| && forall i :: 0 <= i < p ==> Printable(f[i])
    {
      if f[p] == 0 {
        ghost var k := p;
        while p < |f|
          invariant k <= p <= |f| && forall i :: k <= i < p ==> f[i] == 0
        {
          if f[p] != 0 {
            ZeroThenNot(f, k, p);
            return false;
          }
          p := p + 1;
        }
        assert CommandEnds(f, k);
        return true;
      } else if f[p] < 0x20 || f[p] > 0x7e {
        NeitherAt(f, p);
        return false;
      }
      p := p + 1;
    }
    assert CommandEnds(f, |f|);
    ok := true;
  }

  lemma ZeroThenNot(f: Data, k: nat, p: nat)
    requires k < p < |f| && f[k] == 0 && f[p] != 0
    ensures !CommandOk(f)
  {
    forall j | 0 <= j <= |f| ensures !CommandEnds(f, j) {
      if j <= p {
        assert f[p] != 0;
      } else {
        assert !Printable(f[k]);
      }
    }
  }

  lemma NeitherAt(f: Data, p: nat)
    requires p < |f| && f[p] != 0 && !Printable(f[p])
    ensures !CommandOk(f)
  {
    forall j | 0 <= j <= |f| ensures !CommandEnds(f, j) {
      if j <= p {
        assert f[p] != 0;
      } else {
        assert !Printable(f[p]);
      }
    }
  }

  // Receiving

  /** The message start stands at none of the first places. */
  ghost predicate Absent(s: Data, start: Data, d: nat)
    requires d <= |s|
  {
    forall q :: 0 <= q < d ==> !(start <= s[q..])
  }

  /** The first place where the message start stands, or the end. */
  function Find(buf: Data, start: Data): (p: nat)
    ensures p <= |buf|
    ensures p < |buf| ==> start <= buf[p..]
    ensures Absent(buf, start, p)
  {
    if buf == [] || start <= buf then 0
    else
      var p := 1 + Find(buf[1..], start);
      AbsentCons(buf, start, p - 1);
      p
  }

  lemma AbsentCons(s: Data, start: Data, d: nat)
    requires s != [] && d < |s|
    ensures Absent(s, start, d + 1) <==> !(start <= s) && Absent(s[1..], start, d)
    ensures s[1..][d..] == s[d + 1..]
  {
    assert s[0..] == s;
    assert forall q :: 1 <= q <= |s| ==> s[q..] == s[1..][q - 1..];
    if Absent(s, start, d + 1) {
      forall q | 0 <= q < d ensures !(start <= s[1..][q..]) { assert s[1..][q..] == s[q + 1..]; }
    }
  }

  /** One turn of the receiving loop: wait with some bytes kept, drop a header, or deliver a message. */
  datatype Turn = Wait(kept: Data) | Skip(rest: Data) | Deliver(m: Message, rest: Data)

  ghost function TakeTurn(net: Net, buf: Data): (turn: Turn)
    requires Usable(net)
    ensures !turn.Wait? ==> |turn.rest| < |buf|
  {
    var p := Find(buf, net.start);
    if |buf| - p < HEADER_SIZE then Wait(if |buf| > HEADER_SIZE then buf[|buf| - HEADER_SIZE..] else buf)
    else TurnAt(net, buf[p..])
  }

  /** The turn taken where a message start was found. */
  ghost function TurnAt(net: Net, buf: Data): (turn: Turn)
    requires Usable(net) && |buf| >= HEADER_SIZE
    ensures !turn.Wait? ==> |turn.rest| < |buf|
  {
    var header, body := buf[..HEADER_SIZE], buf[HEADER_SIZE..];
    if !ValidHeader(net, header) then Skip(body)
    else if SizeOf(header) > |body| then Wait(buf)
    else if header[CHECKSUM_OFFSET..] != Checksum(net, body[..SizeOf(header)]) then Skip(body)
    else Deliver(Message(GetCommand(header), body[..SizeOf(header)]), body[SizeOf(header)..])
  }

  datatype Parsed = Parsed(delivered: seq<Message>, rest: Data)

  /** What ProcessMessages makes of the bytes received so far: the messages handled and the bytes it keeps. */
  ghost function Parse(net: Net, buf: Data): Parsed
    requires Usable(net)
    decreases |buf|
  {
    match TakeTurn(net, buf)
    case Wait(kept) => Parsed([], kept)
    case Skip(rest) => Parse(net, rest)
    case Deliver(m, rest) =>
      var r := Parse(net, rest);
      Parsed([m] + r.delivered, r.rest)
  }

  // What is sent

  /** Commands are text without zeros, payloads within the limit the receiver sets. */
  ghost predicate Sendable(m: Message) {
    (forall i :: 0 <= i < |m.command| ==> Printable(m.command[i])) && |m.payload| <= MAX_SIZE
  }

  function Short(command: Data): Data {
    if |command| <= COMMAND_SIZE then command else command[..COMMAND_SIZE]
  }

  /** A message as it arrives: a long command is cut off by the header. */
  function Arrived(m: Message): Message {
    Message(Short(m.command), m.payload)
  }

  lemma HeaderFields(net: Net, command: Data, size: nat, checksum: Data)
    requires |net.start| == START_SIZE && |checksum| == 4
    ensures var h := Header(net, command, size, checksum);
            && |h| == HEADER_SIZE && h[..START_SIZE] == net.start && CommandField(h) == Padded(command)
            && h[SIZE_OFFSET..CHECKSUM_OFFSET] == SizeBytes(size) && h[CHECKSUM_OFFSET..] == checksum
  {
  }

  lemma SizeRead(n: nat)
    requires n < 0x1_0000_0000
    ensures Value(SizeBytes(n), 256) == n
  {
    assert Pow(256, 4) == 0x1_0000_0000 by {
      assert Pow(256, 1) == 256 * Pow(256, 0) && Pow(256, 2) == 256 * Pow(256, 1) && Pow(256, 3) == 256 * Pow(256, 2);
    }
    ValueOfFixed(n, 256, 4);
    var s: seq<nat> := Fixed(n, 256, 4);
    assert SizeBytes(n) == s;
  }

  lemma CommandRead(command: Data)
    requires forall i :: 0 <= i < |command| ==> Printable(command[i])
    ensures CommandOk(Padded(command))
    ensures var f := Padded(command); (if f[COMMAND_SIZE - 1] == 0 then UpToZero(f) else f) == Short(command)
  {
    var f, c := Padded(command), Short(command);
    assert CommandEnds(f, |c|);
    assert f[..|c|] == c;
    if f[COMMAND_SIZE - 1] == 0 {
      var z := UpToZero(f);
      assert |c| < COMMAND_SIZE && f[|c|] == 0;
      forall i | 0 <= i < |c| ensures f[i] != 0 { assert Printable(command[i]); }
    } else {
      assert |c| == COMMAND_SIZE;
    }
  }

  /** The header of a message as the receiver sees it. */
  lemma FrameHeader(net: Net, m: Message)
    requires Usable(net) && Sendable(m)
    ensures var f := Frame(net, m);
            && |f| == HEADER_SIZE + |m.payload| && f[HEADER_SIZE..] == m.payload
            && ValidHeader(net, f[..HEADER_SIZE]) && SizeOf(f[..HEADER_SIZE]) == |m.payload|
            && GetCommand(f[..HEADER_SIZE]) == Short(m.command)
            && f[..HEADER_SIZE][CHECKSUM_OFFSET..] == Checksum(net, m.payload)
            && net.start <= f
  {
    var checksum := Checksum(net, m.payload);
    var h := Header(net, m.command, |m.payload|, checksum);
    HeaderFields(net, m.command, |m.payload|, checksum);
    SizeRead(|m.payload|);
    CommandRead(m.command);
    assert Frame(net, m)[..HEADER_SIZE] == h;
    assert net.start <= Frame(net, m) by { assert Frame(net, m)[..START_SIZE] == net.start; }
  }

  lemma FoundAtOnce(net: Net, buf: Data)
    requires Usable(net) && net.start <= buf && |buf| >= HEADER_SIZE
    ensures TakeTurn(net, buf) == TurnAt(net, buf)
  {
    assert Find(buf, net.start) == 0;
    assert buf[0..] == buf;
  }

  lemma WholeFrame(net: Net, m: Message, rest: Data)
    requires Usable(net) && Sendable(m)
    ensures TakeTurn(net, Frame(net, m) + rest) == Deliver(Arrived(m), rest)
  {
    hide Frame, ValidHeader, SizeOf, GetCommand, Checksum, TakeTurn;
    FrameHeader(net, m);
    var f := Frame(net, m);
    var buf := f + rest;
    assert buf[..HEADER_SIZE] == f[..HEADER_SIZE];
    var body := buf[HEADER_SIZE..];
    assert body == m.payload + rest;
    assert body[..|m.payload|] == m.payload && body[|m.payload|..] == rest;
    FoundAtOnce(net, buf);
  }

  /** A whole message at the front is delivered, and the rest is parsed as if it stood alone. */
  lemma FrameParses(net: Net, m: Message, rest: Data)
    requires Usable(net) && Sendable(m)
    ensures Parse(net, Frame(net, m) + rest) ==
            Parsed([Arrived(m)] + Parse(net, rest).delivered, Parse(net, rest).rest)
  {
    hide Frame, TakeTurn;
    WholeFrame(net, m, rest);
  }

  /** Part of a message waits for the rest, and nothing is delivered or lost. */
  lemma FrameWaits(net: Net, m: Message, t: Data)
    requires Usable(net) && Sendable(m) && t < Frame(net, m)
    ensures Parse(net, t) == Parsed([], t)
  {
    FrameHeader(net, m);
    var f := Frame(net, m);
    hide Frame, ValidHeader, GetCommand, Checksum, SizeOf;
    assert TakeTurn(net, t) == Wait(t) by {
      if |t| >= HEADER_SIZE {
        assert t == f[..|t|] && t[..START_SIZE] == f[..START_SIZE];
        assert net.start <= t;
        FoundAtOnce(net, t);
        assert t[..HEADER_SIZE] == f[..HEADER_SIZE];
      }
    }
  }

  // Streams of messages

  ghost predicate AllSendable(ms: seq<Message>) {
    forall i :: 0 <= i < |ms| ==> Sendable(ms[i])
  }

  ghost function Frames(net: Net, ms: seq<Message>): Data
    requires Usable(net)
  {
    if ms == [] then [] else Frame(net, ms[0]) + Frames(net, ms[1..])
  }

  ghost function ArrivedAll(ms: seq<Message>): (r: seq<Message>)
    ensures |r| == |ms| && forall i :: 0 <= i < |ms| ==> r[i] == Arrived(ms[i])
  {
    seq(|ms|, i requires 0 <= i < |ms| => Arrived(ms[i]))
  }

  /** The number of messages that have come in whole. */
  ghost function Whole(net: Net, ms: seq<Message>, t: Data): (k: nat)
    requires Usable(net)
    ensures k <= |ms|
  {
    if ms == [] || |t| < |Frame(net, ms[0])| then 0
    else 1 + Whole(net, ms[1..], t[|Frame(net, ms[0])|..])
  }

  /** Of the bytes t, k messages came in whole and are delivered; what is kept is the start of the next one. */
  ghost predicate Delivers(net: Net, ms: seq<Message>, k: nat, t: Data, r: Parsed)
    requires Usable(net)
  {
    && k <= |ms| && r.delivered == ArrivedAll(ms[..k]) && t == Frames(net, ms[..k]) + r.rest
    && (if k == |ms| then r.rest == [] else r.rest < Frame(net, ms[k]))
  }

  lemma DeliversNone(net: Net, ms: seq<Message>, t: Data)
    requires Usable(net) && (if ms == [] then t == [] else t < Frame(net, ms[0]))
    ensures Delivers(net, ms, 0, t, Parsed([], t))
  {
    assert ms[..0] == [];
  }

  lemma DeliversCons(net: Net, ms: seq<Message>, k: nat, u: Data, r: Parsed)
    requires Usable(net) && ms != [] && Delivers(net, ms[1..], k, u, r)
    ensures Delivers(net, ms, k + 1, Frame(net, ms[0]) + u, Parsed([Arrived(ms[0])] + r.delivered, r.rest))
  {
    hide Frame;
    assert ms[..k + 1][1..] == ms[1..][..k];
    assert ArrivedAll(ms[..k + 1]) == [Arrived(ms[0])] + ArrivedAll(ms[1..][..k]);
    Assoc(Frame(net, ms[0]), Frames(net, ms[1..][..k]), r.rest);
  }

  lemma PrefixSplit(f: Data, more: Data, t: Data)
    requires t <= f + more
    ensures |t| < |f| ==> t < f
    ensures |t| >= |f| ==> t == f + t[|f|..] && t[|f|..] <= more
  {
    assert t == (f + more)[..|t|];
    if |t| < |f| {
      assert t == f[..|t|];
    } else {
      assert t[..|f|] == f && t[|f|..] == more[..|t| - |f|];
    }
  }

  /** Any part of the stream received at once. */
  lemma {:induction false} StreamParses(net: Net, ms: seq<Message>, t: Data)
    requires Usable(net) && AllSendable(ms) && t <= Frames(net, ms)
    ensures Delivers(net, ms, Whole(net, ms, t), t, Parse(net, t))
    decreases |ms|
  {
    hide Delivers, Frame, Parse;
    if ms == [] {
      DeliversNone(net, ms, t);
      NothingParses(net);
    } else {
      var f := Frame(net, ms[0]);
      PrefixSplit(f, Frames(net, ms[1..]), t);
      if |t| < |f| {
        FrameWaits(net, ms[0], t);
        DeliversNone(net, ms, t);
      } else {
        var u := t[|f|..];
        FrameParses(net, ms[0], u);
        StreamParses(net, ms[1..], u);
        DeliversCons(net, ms, Whole(net, ms[1..], u), u, Parse(net, u));
      }
    }
  }

  lemma {:induction false} FramesSplit(net: Net, ms: seq<Message>, k: nat)
    requires Usable(net) && k <= |ms|
    ensures Frames(net, ms) == Frames(net, ms[..k]) + Frames(net, ms[k..])
    decreases k
  {
    hide Frame;
    if k == 0 {
      assert ms[..0] == [] && ms[0..] == ms;
    } else {
      FramesSplit(net, ms[1..], k - 1);
      assert ms[..k][1..] == ms[1..][..k - 1] && ms[1..][k - 1..] == ms[k..];
      Assoc(Frame(net, ms[0]), Frames(net, ms[1..][..k - 1]), Frames(net, ms[k..]));
    }
  }

  /** How many messages came in whole is settled by the bytes. */
  lemma {:induction false} DeliversWhole(net: Net, ms: seq<Message>, k: nat, t: Data, r: Parsed)
    requires Usable(net) && Delivers(net, ms, k, t, r)
    ensures k == Whole(net, ms, t)
    decreases k
  {
    hide Frame;
    if k == 0 {
      assert ms[..0] == [] && t == r.rest;
    } else {
      var f := Frame(net, ms[0]);
      assert ms[..k][1..] == ms[1..][..k - 1];
      var fs := Frames(net, ms[1..][..k - 1]);
      Assoc(f, fs, r.rest);
      assert t[|f|..] == fs + r.rest;
      assert ArrivedAll(ms[1..][..k - 1]) == r.delivered[1..];
      DeliversWhole(net, ms[1..], k - 1, t[|f|..], Parsed(r.delivered[1..], r.rest));
    }
  }

  // Chunks

  function Joined(chunks: seq<Data>): Data {
    if chunks == [] then [] else Joined(chunks[..|chunks| - 1]) + chunks[|chunks| - 1]
  }

  /** Each chunk is put behind what was kept, and the whole parsed. */
  ghost function Fed(net: Net, chunks: seq<Data>): Parsed
    requires Usable(net)
  {
    if chunks == [] then Parsed([], [])
    else
      var before := Fed(net, chunks[..|chunks| - 1]);
      var r := Parse(net, before.rest + chunks[|chunks| - 1]);
      Parsed(before.delivered + r.delivered, r.rest)
  }

  /** Where the message start stands does not depend on bytes behind it. */
  lemma StartsAlike(buf: Data, more: Data, start: Data, q: nat)
    requires q + |start| <= |buf|
    ensures start <= (buf + more)[q..] <==> start <= buf[q..]
  {
    assert (buf + more)[q..] == buf[q..] + more;
    assert (buf[q..] + more)[..|start|] == buf[q..][..|start|];
  }

  /** Bytes at which no message starts can be left out of the search. */
  lemma {:induction false} FindShifts(s: Data, start: Data, d: nat)
    requires d <= |s| && Absent(s, start, d)
    ensures Find(s, start) == d + Find(s[d..], start)
  {
    hide Absent;
    if d == 0 {
      assert s[0..] == s;
    } else {
      AbsentCons(s, start, d - 1);
      FindShifts(s[1..], start, d - 1);
    }
  }

  lemma NoEarlierStart(buf: Data, more: Data, start: Data, d: nat)
    requires d <= Find(buf, start) && d + |start| <= |buf| + 1
    ensures d <= |buf + more| && Absent(buf + more, start, d)
  {
    hide Find;
    forall q | 0 <= q < d ensures !(start <= (buf + more)[q..]) { StartsAlike(buf, more, start, q); }
  }

  /** They can be dropped, as long as a header's length is kept. */
  lemma GarbageDropped(net: Net, s: Data, d: nat)
    requires Usable(net) && d + HEADER_SIZE <= |s| && Absent(s, net.start, d)
    ensures TakeTurn(net, s) == TakeTurn(net, s[d..])
  {
    hide TurnAt, Find, Absent;
    FindShifts(s, net.start, d);
    var p := Find(s[d..], net.start);
    assert s[d + p..] == s[d..][p..];
    assert s[|s| - HEADER_SIZE..] == s[d..][|s| - d - HEADER_SIZE..];
  }

  /** A turn that is not waiting is the same with more bytes behind. */
  lemma TurnExtends(net: Net, buf: Data, more: Data)
    requires Usable(net) && |buf| >= HEADER_SIZE
    ensures var t := TurnAt(net, buf);
            && (t.Wait? ==> t.kept == buf)
            && (t.Skip? ==> TurnAt(net, buf + more) == Skip(t.rest + more))
            && (t.Deliver? ==> TurnAt(net, buf + more) == Deliver(t.m, t.rest + more))
  {
    hide ValidHeader, SizeOf, GetCommand, Checksum;
    var all := buf + more;
    assert all[..HEADER_SIZE] == buf[..HEADER_SIZE] && all[HEADER_SIZE..] == buf[HEADER_SIZE..] + more;
    var body, n := buf[HEADER_SIZE..], SizeOf(buf[..HEADER_SIZE]);
    if n <= |body| {
      assert (body + more)[..n] == body[..n] && (body + more)[n..] == body[n..] + more;
    }
  }

  lemma StartLater(net: Net, buf: Data, more: Data, d: nat, all: Data)
    requires Usable(net) && d + HEADER_SIZE <= |buf| && d <= Find(buf, net.start) && all == buf + more
    ensures TakeTurn(net, all) == TakeTurn(net, all[d..])
  {
    hide TakeTurn, Find, Absent;
    NoEarlierStart(buf, more, net.start, d);
    GarbageDropped(net, all, d);
  }

  lemma DropJoined(buf: Data, more: Data, kept: Data, d: nat)
    requires d <= |buf| && kept == buf[d..]
    ensures (buf + more)[d..] == kept + more
  {
  }

  /** Bytes before the first start make no difference to what comes after them. */
  lemma GarbageExtends(net: Net, buf: Data, more: Data, kept: Data, d: nat)
    requires Usable(net) && d + HEADER_SIZE <= |buf| && d <= Find(buf, net.start) && kept == buf[d..]
    ensures TakeTurn(net, buf + more) == TakeTurn(net, kept + more)
  {
    hide *;
    StartLater(net, buf, more, d, buf + more);
    DropJoined(buf, more, kept, d);
  }

  lemma FoundExtends(net: Net, buf: Data, more: Data, p: nat, kept: Data)
    requires Usable(net) && p == Find(buf, net.start) && p + HEADER_SIZE <= |buf| && kept == buf[p..]
    ensures TakeTurn(net, buf) == TurnAt(net, kept)
    ensures TakeTurn(net, buf + more) == TurnAt(net, kept + more) == TakeTurn(net, kept + more)
  {
    hide TurnAt, Find, Absent;
    assert TakeTurn(net, buf) == TurnAt(net, kept);
    hide *;
    GarbageExtends(net, buf, more, kept, p);
    PrefixJoined(net.start, kept, more);
    FoundAtOnce(net, kept + more);
  }

  lemma PrefixJoined(a: Data, b: Data, c: Data)
    requires a <= b
    ensures a <= b + c
  {
  }

  /** What a turn makes of the bytes so far leaves the turn on them and more bytes unchanged. */
  lemma TakeTurnExtends(net: Net, buf: Data, more: Data)
    requires Usable(net)
    ensures var t := TakeTurn(net, buf);
            && (t.Wait? ==> TakeTurn(net, buf + more) == TakeTurn(net, t.kept + more))
            && (t.Skip? ==> TakeTurn(net, buf + more) == Skip(t.rest + more))
            && (t.Deliver? ==> TakeTurn(net, buf + more) == Deliver(t.m, t.rest + more))
  {
    hide TurnAt, Find, Absent;
    var p := Find(buf, net.start);
    if p + HEADER_SIZE <= |buf| {
      var kept := buf[p..];
      FoundExtends(net, buf, more, p, kept);
      TurnExtends(net, kept, more);
    } else if |buf| > HEADER_SIZE {
      var kept := buf[|buf| - HEADER_SIZE..];
      GarbageExtends(net, buf, more, kept, |buf| - HEADER_SIZE);
    }
  }

  /** Parsing some bytes, then what was kept and the bytes after them, is parsing them all. */
  lemma {:induction false} ParseExtends(net: Net, buf: Data, more: Data)
    requires Usable(net)
    ensures var r := Parse(net, buf);
            var q := Parse(net, r.rest + more);
            Parse(net, buf + more) == Parsed(r.delivered + q.delivered, q.rest)
    decreases |buf|
  {
    hide TakeTurn;
    TakeTurnExtends(net, buf, more);
    match TakeTurn(net, buf)
    case Wait(kept) =>
      SameTurn(net, buf + more, kept + more);
    case Skip(rest) =>
      ParseExtends(net, rest, more);
    case Deliver(m, rest) =>
      ParseExtends(net, rest, more);
      var r := Parse(net, rest);
      Assoc([m], r.delivered, Parse(net, r.rest + more).delivered);
  }

  lemma SameTurn(net: Net, s: Data, t: Data)
    requires Usable(net) && TakeTurn(net, s) == TakeTurn(net, t)
    ensures Parse(net, s) == Parse(net, t)
  {
    hide TakeTurn;
  }

  /**
   Chunk independence, for any bytes at all. However they were cut up, what was delivered and what is
   kept are those of the same bytes received at once.
   */
  lemma {:induction false} ChunksParse(net: Net, chunks: seq<Data>)
    requires Usable(net)
    ensures Fed(net, chunks) == Parse(net, Joined(chunks))
  {
    hide Parse;
    if chunks == [] {
      NothingParses(net);
    } else {
      var before := chunks[..|chunks| - 1];
      ChunksParse(net, before);
      ParseExtends(net, Joined(before), chunks[|chunks| - 1]);
    }
  }

  /** Of a stream of messages the whole ones are delivered, and what is kept is the start of the next one. */
  lemma FramesChunked(net: Net, ms: seq<Message>, chunks: seq<Data>)
    requires Usable(net) && AllSendable(ms) && Joined(chunks) <= Frames(net, ms)
    ensures Delivers(net, ms, Whole(net, ms, Joined(chunks)), Joined(chunks), Fed(net, chunks))
  {
    hide Delivers, Parse;
    ChunksParse(net, chunks);
    StreamParses(net, ms, Joined(chunks));
  }

  lemma NothingParses(net: Net)
    requires Usable(net)
    ensures Parse(net, []) == Parsed([], [])
  {
  }

  /** Once all bytes are in, all messages are delivered and nothing is kept. */
  lemma AllDelivered(net: Net, ms: seq<Message>, chunks: seq<Data>)
    requires Usable(net) && AllSendable(ms) && Joined(chunks) == Frames(net, ms)
    ensures Fed(net, chunks) == Parsed(ArrivedAll(ms), [])
    ensures (forall i :: 0 <= i < |ms| ==> |ms[i].command| <= COMMAND_SIZE) ==> Fed(net, chunks).delivered == ms
  {
    hide Frame;
    FramesChunked(net, ms, chunks);
    var t := Joined(chunks);
    assert ms[..|ms|] == ms && t == Frames(net, ms) + [];
    assert Delivers(net, ms, |ms|, t, Parsed(ArrivedAll(ms), []));
    DeliversWhole(net, ms, |ms|, t, Parsed(ArrivedAll(ms), []));
    if forall i :: 0 <= i < |ms| ==> |ms[i].command| <= COMMAND_SIZE {
      forall i | 0 <= i < |ms| ensures Arrived(ms[i]) == ms[i] {}
    }
  }

  // The receiving node

  /** Reading the header field by field. */
  method ReadHeader(s: DataStream) returns (header: Data)
    requires s.Valid() && s.Size() >= HEADER_SIZE
    modifies s
    ensures s.Valid() && header == old(s.Contents())[..HEADER_SIZE] && s.Contents() == old(s.Contents())[HEADER_SIZE..]
  {
    ghost var c := s.Contents();
    var start := s.Read(START_SIZE);
    var command := s.Read(COMMAND_SIZE);
    var size := s.Read(4);
    var checksum := s.Read(4);
    assert command.value == c[4..16] && size.value == c[16..20] && checksum.value == c[20..24];
    header := start.value + command.value + size.value + checksum.value;
  }

  /** One turn of the loop in ProcessMessages; a message handed out is processed before the next turn. */
  method Turning(net: Net, s: DataStream) returns (stop: bool, got: Option<Message>)
    requires Usable(net) && s.Valid()
    modifies s
    ensures s.Valid()
    ensures var turn := TakeTurn(net, old(s.Contents()));
            && stop == turn.Wait? && s.Contents() == (if turn.Wait? then turn.kept else turn.rest)
            && got == (if turn.Deliver? then Some(turn.m) else None)
  {
    hide ValidHeader, SizeOf, GetCommand, Checksum, Find, Absent;
    ghost var buf := s.Contents();
    var p := Find(s.Range(0, s.Size()), net.start);
    assert buf[0..|buf|] == buf;
    if s.Size() - p < HEADER_SIZE {
      if s.Size() > HEADER_SIZE {
        s.Erase(0, s.Size() - HEADER_SIZE);
      }
      return true, None;
    }
    s.Erase(0, p);
    ghost var found := s.Contents();
    assert found == buf[p..];
    var save := s.Range(0, HEADER_SIZE);
    var header := ReadHeader(s);
    var ok := IsValid(net, header);
    if !ok {
      return false, None;
    }
    var size := SizeOf(header);
    if size > s.Size() {
      s.Insert(0, save);
      assert s.Contents() == found;
      return true, None;
    }
    var payload := s.Range(0, size);
    if Checksum(net, payload) != header[CHECKSUM_OFFSET..] {
      return false, None;
    }
    ok := s.Ignore(size);
    return false, Some(Message(GetCommand(header), payload));
  }

  /** ProcessMessages */
  method ProcessMessages(net: Net, s: DataStream) returns (delivered: seq<Message>)
    requires Usable(net) && s.Valid()
    modifies s
    ensures s.Valid() && Parsed(delivered, s.Contents()) == Parse(net, old(s.Contents()))
  {
    hide TakeTurn;
    delivered := [];
    var stop := false;
    while !stop
      invariant s.Valid()
      invariant if stop then Parsed(delivered, s.Contents()) == Parse(net, old(s.Contents()))
                else var r := Parse(net, s.Contents());
                     Parsed(delivered + r.delivered, r.rest) == Parse(net, old(s.Contents()))
      decreases !stop, |s.Contents()|
    {
      var got;
      stop, got := Turning(net, s);
      if got.Some? {
        delivered := delivered + [got.value];
      }
    }
    s.Compact();
  }

  /** Chunks as they come from the socket, each followed by ProcessMessages. */
  method ReceiveAll(net: Net, chunks: seq<Data>) returns (delivered: seq<Message>, s: DataStream)
    requires Usable(net)
    ensures fresh(s) && s.Valid() && Parsed(delivered, s.Contents()) == Fed(net, chunks)
  {
    hide Parse;
    delivered := [];
    s := new DataStream([]);
    for i := 0 to |chunks|
      invariant s.Valid() && Parsed(delivered, s.Contents()) == Fed(net, chunks[..i]) && fresh(s)
    {
      s.Receive(chunks[i]);
      var more := ProcessMessages(net, s);
      delivered := delivered + more;
      assert chunks[..i + 1][..i] == chunks[..i];
    }
    assert chunks[..|chunks|] == chunks;
  }

  // The sending node

  const NO_CHECKSUM: Data := [0, 0, 0, 0]

  class Sender {
    const net: Net
    const out: DataStream
    var headerStart: int
    var messageStart: int
    /** The message being written, and the bytes before it. */
    ghost var before: Data
    ghost var current: Message

    ghost predicate Valid()
      reads this, out
    {
      && Usable(net) && out.Valid()
      && (headerStart == -1 || Writing())
    }

    /** The open message stands at the end, its header without size and checksum. */
    ghost predicate Writing()
      requires out.Valid()
      reads this, out
    {
      && headerStart == |before| && messageStart == headerStart + HEADER_SIZE
      && out.Contents() == before + Header(net, current.command, 0, NO_CHECKSUM) + current.payload
    }

    constructor (n: Net)
      requires Usable(n)
      ensures Valid() && fresh(out) && net == n && headerStart == -1 && out.Contents() == []
    {
      net := n;
      out := new DataStream([]);
      headerStart, messageStart := -1, -1;
      before, current := [], Message([], []);
    }

    /** BeginMessage; an open message is aborted. */
    method BeginMessage(command: Data)
      requires Valid()
      modifies this, out
      ensures Valid() && headerStart >= 0 && current == Message(command, [])
      ensures before == if old(headerStart) == -1 then old(out.Contents()) else old(before)
    {
      if headerStart != -1 {
        AbortMessage();
      }
      before, current := out.Contents(), Message(command, []);
      headerStart := out.Size();
      out.Write(Header(net, command, 0, NO_CHECKSUM));
      HeaderFields(net, command, 0, NO_CHECKSUM);
      messageStart := out.Size();
    }

    /** More of the payload. */
    method Put(data: Data)
      requires Valid() && headerStart >= 0
      modifies this, out
      ensures Valid() && headerStart == old(headerStart) && before == old(before)
      ensures current == old(current).(payload := old(current).payload + data)
    {
      out.Write(data);
      Assoc(before + Header(net, current.command, 0, NO_CHECKSUM), current.payload, data);
      current := current.(payload := current.payload + data);
    }

    /** AbortMessage: as if it had never been begun. */
    method AbortMessage()
      requires Valid()
      modifies this, out
      ensures Valid() && headerStart == -1
      ensures out.Contents() == if old(headerStart) == -1 then old(out.Contents()) else old(before)
    {
      if headerStart < 0 {
        return;
      }
      out.Resize(headerStart);
      headerStart, messageStart := -1, -1;
    }

    /** EndMessage: size and checksum are patched into the header. */
    method EndMessage()
      requires Valid()
      modifies this, out
      ensures Valid() && headerStart == -1
      ensures out.Contents() == if old(headerStart) == -1 then old(out.Contents())
              else old(before) + Frame(net, old(current))
    {
      if headerStart < 0 {
        return;
      }
      ghost var b, m := before, current;
      HeaderFields(net, m.command, 0, NO_CHECKSUM);
      var size := out.Size() - messageStart;
      assert size == |m.payload|;
      Patched(net, b, m, size, NO_CHECKSUM);
      out.Overwrite(headerStart + SIZE_OFFSET, SizeBytes(size));
      assert out.Contents() == b + Header(net, m.command, size, NO_CHECKSUM) + m.payload;
      HeaderFields(net, m.command, size, NO_CHECKSUM);
      var payload := out.Range(messageStart, out.Size());
      assert payload == m.payload;
      Summed(net, b, m, size, Checksum(net, payload));
      out.Overwrite(headerStart + CHECKSUM_OFFSET, Checksum(net, payload));
      headerStart, messageStart := -1, -1;
    }

    /** Messages sent one after another. */
    method SendAll(ms: seq<Message>)
      requires Valid() && headerStart == -1
      modifies this, out
      ensures Valid() && headerStart == -1 && out.Contents() == old(out.Contents()) + Frames(net, ms)
    {
      hide Frame, Header;
      assert ms[..0] == [];
      for i := 0 to |ms|
        invariant Valid() && headerStart == -1 && out.Contents() == old(out.Contents()) + Frames(net, ms[..i])
      {
        BeginMessage(ms[i].command);
        Put(ms[i].payload);
        assert [] + ms[i].payload == ms[i].payload;
        assert current == ms[i];
        EndMessage();
        FramesSnoc(net, ms, i);
        Assoc(old(out.Contents()), Frames(net, ms[..i]), Frame(net, ms[i]));
      }
      assert ms[..|ms|] == ms;
    }
  }

  lemma FramesSnoc(net: Net, ms: seq<Message>, i: nat)
    requires Usable(net) && i < |ms|
    ensures Frames(net, ms[..i + 1]) == Frames(net, ms[..i]) + Frame(net, ms[i])
  {
    hide Frame;
    FramesSplit(net, ms[..i + 1], i);
    assert ms[..i + 1][..i] == ms[..i] && ms[..i + 1][i..] == [ms[i]];
    assert [ms[i]][1..] == [] && Frames(net, [ms[i]]) == Frame(net, ms[i]) + Frames(net, []);
  }

  lemma Overwritten(start: Data, field: Data, rest: Data, data: Data)
    requires |data| == |field|
    ensures var c := start + field + rest;
            c[..|start|] + data + c[|start| + |data|..] == start + data + rest
  {
    var c := start + field + rest;
    assert c[..|start|] == start && c[|start| + |data|..] == rest;
  }

  lemma HeaderParts(net: Net, b: Data, m: Message, size: nat, checksum: Data)
    ensures b + Header(net, m.command, size, checksum) + m.payload ==
            (b + net.start + Padded(m.command)) + SizeBytes(size) + (checksum + m.payload)
    ensures b + Header(net, m.command, size, checksum) + m.payload ==
            (b + net.start + Padded(m.command) + SizeBytes(size)) + checksum + m.payload
    ensures b + (Header(net, m.command, size, checksum) + m.payload) ==
            b + Header(net, m.command, size, checksum) + m.payload
  {
    hide Padded, SizeBytes;
  }

  /** Overwriting the size field of a header in place. */
  lemma Patched(net: Net, b: Data, m: Message, size: nat, checksum: Data)
    requires |net.start| == START_SIZE && |checksum| == 4
    ensures var c, at := b + Header(net, m.command, 0, checksum) + m.payload, |b| + SIZE_OFFSET;
            && at + 4 <= |c|
            && c[..at] + SizeBytes(size) + c[at + 4..] == b + Header(net, m.command, size, checksum) + m.payload
  {
    hide Padded, SizeBytes, Header;
    HeaderParts(net, b, m, 0, checksum);
    HeaderParts(net, b, m, size, checksum);
    Overwritten(b + net.start + Padded(m.command), SizeBytes(0), checksum + m.payload, SizeBytes(size));
  }

  /** And its checksum. */
  lemma Summed(net: Net, b: Data, m: Message, size: nat, checksum: Data)
    requires |net.start| == START_SIZE && |checksum| == 4
    ensures var c, at := b + Header(net, m.command, size, NO_CHECKSUM) + m.payload, |b| + CHECKSUM_OFFSET;
            && at + 4 <= |c|
            && c[..at] + checksum + c[at + 4..] == b + (Header(net, m.command, size, checksum) + m.payload)
  {
    hide Padded, SizeBytes, Header;
    HeaderParts(net, b, m, size, NO_CHECKSUM);
    HeaderParts(net, b, m, size, checksum);
    Overwritten(b + net.start + Padded(m.command) + SizeBytes(size), NO_CHECKSUM, m.payload, checksum);
  }
}
