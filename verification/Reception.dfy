/**
 What the receiver makes of any bytes, said without its turns: garbage is passed over, damaged and refused
 headers are dropped, an unfinished message waits, and only frames that stand in the buffer are delivered.
 */
module Reception {
  import opened Bytes
  import opened Radix
  import opened Framing

  // Headers

  /** A header behind the right start that is refused: its size, or a byte of its command. */
  ghost predicate Refused(h: Data)
    requires |h| == 24
  {
    || Value(h[16..20], 256) > 0x0200_0000
    || (exists i :: 4 <= i < 16 && h[i] != 0 && !(0x20 <= h[i] <= 0x7e))
    || (exists i, j :: 4 <= i < j < 16 && h[i] == 0 && h[j] != 0)
  }

  lemma FieldAt(h: Data, i: nat)
    requires |h| == 24 && i < 12
    ensures CommandField(h)[i] == h[4 + i]
  {
  }

  lemma {:induction false} FirstZero(f: Data, n: nat) returns (k: nat)
    requires n <= |f|
    ensures k <= n && (forall i :: 0 <= i < k ==> f[i] != 0) && (k < n ==> f[k] == 0)
    decreases n
  {
    if n == 0 {
      k := 0;
    } else {
      k := FirstZero(f, n - 1);
      if k == n - 1 && f[k] != 0 {
        k := n;
      }
    }
  }

  lemma RefusedIff(net: Net, h: Data)
    requires |net.start| == START_SIZE && |h| == 24 && net.start <= h
    ensures ValidHeader(net, h) <==> !Refused(h)
  {
    hide Value;
    var f := CommandField(h);
    assert h[..START_SIZE] == net.start;
    forall i | 0 <= i < 12 ensures f[i] == h[4 + i] { FieldAt(h, i); }
    if CommandOk(f) {
      var k :| 0 <= k <= |f| && CommandEnds(f, k);
      forall i | 4 <= i < 16 ensures h[i] == 0 || 0x20 <= h[i] <= 0x7e { assert f[i - 4] == h[i]; }
      forall i, j | 4 <= i < j < 16 && h[i] == 0 ensures h[j] == 0 { assert f[i - 4] == h[i] && f[j - 4] == h[j]; }
    }
    if !Refused(h) {
      var k := FirstZero(f, 12);
      assert CommandEnds(f, k) by {
        forall i | 0 <= i < k ensures Printable(f[i]) { assert f[i] == h[4 + i]; }
        forall i | k <= i < 12 ensures f[i] == 0 { assert f[i] == h[4 + i] && f[k] == h[4 + k]; }
      }
    }
  }

  lemma {:induction false} FixedOfValue(d: Data)
    ensures |Fixed(Value(d, 256), 256, |d|)| == |d|
    ensures forall i :: 0 <= i < |d| ==> Fixed(Value(d, 256), 256, |d|)[i] == d[i]
  {
    if d != [] {
      FixedOfValue(d[1..]);
      var v := Value(d[1..], 256);
      assert Value(d, 256) % 256 == d[0] && Value(d, 256) / 256 == v;
    }
  }

  /** The size field is the one the sender writes for that size. */
  lemma SizeWritten(d: Data)
    requires |d| == 4
    ensures SizeBytes(Value(d, 256)) == d
  {
    hide Fixed, Value;
    FixedOfValue(d);
  }

  /** A command that passes is the padded form of what is read from it. */
  lemma CommandWritten(f: Data)
    requires |f| == COMMAND_SIZE && CommandOk(f)
    ensures var c := if f[COMMAND_SIZE - 1] == 0 then UpToZero(f) else f;
            && Padded(c) == f && |c| <= COMMAND_SIZE && forall i :: 0 <= i < |c| ==> Printable(c[i])
  {
    var k :| 0 <= k <= |f| && CommandEnds(f, k);
    var c := if f[COMMAND_SIZE - 1] == 0 then UpToZero(f) else f;
    if |c| < |f| {
      assert !Printable(f[|c|]) && k <= |c|;
    }
    forall i | 0 <= i < |c| ensures Printable(c[i]) {
      assert c[i] == f[i];
    }
  }

  /** A valid header with the right checksum, and its payload, are what the sender writes for the message read. */
  lemma StandsAsSent(net: Net, h: Data, payload: Data)
    requires Usable(net) && |h| == HEADER_SIZE && ValidHeader(net, h) && SizeOf(h) == |payload|
    requires h[CHECKSUM_OFFSET..] == Checksum(net, payload)
    ensures var m := Message(GetCommand(h), payload);
            Frame(net, m) == h + payload && Sendable(m) && |m.command| <= COMMAND_SIZE
  {
    hide Value, SizeBytes, Padded, CommandOk;
    var m := Message(GetCommand(h), payload);
    CommandWritten(CommandField(h));
    SizeWritten(h[SIZE_OFFSET..CHECKSUM_OFFSET]);
    assert Header(net, m.command, |payload|, Checksum(net, payload)) ==
           h[..START_SIZE] + h[START_SIZE..SIZE_OFFSET] + h[SIZE_OFFSET..CHECKSUM_OFFSET] + h[CHECKSUM_OFFSET..];
    HeaderSplit(h);
  }

  lemma HeaderSplit(h: Data)
    requires |h| == 24
    ensures h[..4] + h[4..16] + h[16..20] + h[20..] == h
  {
  }

  // Turns at the front of the buffer

  lemma AtFront(net: Net, h: Data, body: Data)
    requires Usable(net) && |h| == HEADER_SIZE && net.start <= h
    ensures TakeTurn(net, h + body) == TurnAt(net, h + body)
    ensures (h + body)[..HEADER_SIZE] == h && (h + body)[HEADER_SIZE..] == body
  {
    hide TurnAt, Find;
    PrefixJoined(net.start, h, body);
    FoundAtOnce(net, h + body);
  }

  /** A refused header is dropped, and only the header: what follows is parsed as if it stood alone. */
  lemma RefusedDropped(net: Net, h: Data, body: Data)
    requires Usable(net) && |h| == 24 && net.start <= h && Refused(h)
    ensures Parse(net, h + body) == Parse(net, body)
  {
    hide TakeTurn, ValidHeader, Refused;
    RefusedIff(net, h);
    AtFront(net, h, body);
  }

  /** So is a header whose checksum is not that of the payload behind it. */
  lemma DamagedDropped(net: Net, h: Data, body: Data)
    requires Usable(net) && |h| == 24 && net.start <= h && !Refused(h) && Value(h[16..20], 256) <= |body|
    requires h[20..] != net.hash(body[..Value(h[16..20], 256)])[..4]
    ensures Parse(net, h + body) == Parse(net, body)
  {
    hide TakeTurn, ValidHeader, Refused, Value;
    RefusedIff(net, h);
    AtFront(net, h, body);
  }

  /** A header that announces more than has arrived waits, and nothing is lost. */
  lemma UnfinishedWaits(net: Net, h: Data, body: Data)
    requires Usable(net) && |h| == 24 && net.start <= h && !Refused(h) && Value(h[16..20], 256) > |body|
    ensures Parse(net, h + body) == Parsed([], h + body)
  {
    hide TakeTurn, ValidHeader, Refused, Value;
    RefusedIff(net, h);
    AtFront(net, h, body);
  }

  /** Bytes in which no message starts are passed over once a start with a whole header follows. */
  lemma GarbageSkipped(net: Net, garbage: Data, s: Data)
    requires Usable(net) && |s| >= 24 && Absent(garbage + s, net.start, |garbage|)
    ensures Parse(net, garbage + s) == Parse(net, s)
  {
    hide TakeTurn, Absent;
    GarbageDropped(net, garbage + s, |garbage|);
    assert (garbage + s)[|garbage|..] == s;
    SameTurn(net, garbage + s, s);
  }

  /** Where no start has a whole header behind it, the last bytes, a header's length, are all that is kept. */
  lemma GarbageKept(net: Net, buf: Data)
    requires Usable(net) && forall q :: 0 <= q && q + 24 <= |buf| ==> !(net.start <= buf[q..])
    ensures Parse(net, buf) == Parsed([], if |buf| > 24 then buf[|buf| - 24..] else buf)
  {
    hide TurnAt;
  }

  // What is delivered

  /** The messages stand in the buffer as they were sent, at these places, one behind the other. */
  ghost predicate Genuine(net: Net, buf: Data, ms: seq<Message>, places: seq<nat>)
    requires Usable(net)
  {
    && |places| == |ms|
    && (forall i :: 0 <= i < |ms| ==> StandsAt(net, buf, ms[i], places[i]))
    && (forall i, j :: 0 <= i < j < |ms| ==> places[i] + |Frame(net, ms[i])| <= places[j])
  }

  ghost predicate StandsAt(net: Net, buf: Data, m: Message, p: nat)
    requires Usable(net)
  {
    p <= |buf| && Frame(net, m) <= buf[p..] && Sendable(m) && |m.command| <= COMMAND_SIZE
  }

  lemma StandsLater(net: Net, buf: Data, rest: Data, d: nat, m: Message, p: nat)
    requires Usable(net) && d <= |buf| && rest == buf[d..] && StandsAt(net, rest, m, p)
    ensures StandsAt(net, buf, m, d + p)
  {
    hide Frame;
    assert rest[p..] == buf[d + p..];
  }

  function Moved(places: seq<nat>, d: nat): (r: seq<nat>)
    ensures |r| == |places| && forall i :: 0 <= i < |places| ==> r[i] == d + places[i]
  {
    seq(|places|, i requires 0 <= i < |places| => d + places[i])
  }

  lemma GenuineLater(net: Net, buf: Data, rest: Data, d: nat, ms: seq<Message>, places: seq<nat>)
    requires Usable(net) && d <= |buf| && rest == buf[d..] && Genuine(net, rest, ms, places)
    ensures Genuine(net, buf, ms, Moved(places, d))
  {
    hide Frame, StandsAt;
    forall i | 0 <= i < |ms| ensures StandsAt(net, buf, ms[i], Moved(places, d)[i]) {
      StandsLater(net, buf, rest, d, ms[i], places[i]);
    }
  }

  lemma GenuineCons(net: Net, buf: Data, m: Message, p: nat, rest: Data, ms: seq<Message>, places: seq<nat>)
    requires Usable(net) && StandsAt(net, buf, m, p) && p + |Frame(net, m)| <= |buf|
    requires rest == buf[p + |Frame(net, m)|..] && Genuine(net, rest, ms, places)
    ensures Genuine(net, buf, [m] + ms, [p] + Moved(places, p + |Frame(net, m)|))
  {
    hide Frame, StandsAt;
    var d := p + |Frame(net, m)|;
    GenuineLater(net, buf, rest, d, ms, places);
    GenuineBehind(net, buf, m, p, ms, Moved(places, d));
  }

  lemma GenuineBehind(net: Net, buf: Data, m: Message, p: nat, ms: seq<Message>, later: seq<nat>)
    requires Usable(net) && StandsAt(net, buf, m, p) && Genuine(net, buf, ms, later)
    requires forall i :: 0 <= i < |later| ==> p + |Frame(net, m)| <= later[i]
    ensures Genuine(net, buf, [m] + ms, [p] + later)
  {
    hide Frame, StandsAt;
    var all, at := [m] + ms, [p] + later;
    forall i | 0 <= i < |all| ensures StandsAt(net, buf, all[i], at[i]) {
      if i > 0 { assert all[i] == ms[i - 1] && at[i] == later[i - 1]; }
    }
    forall i, j | 0 <= i < j < |all| ensures at[i] + |Frame(net, all[i])| <= at[j] {
      assert all[j] == ms[j - 1] && at[j] == later[j - 1];
      if i > 0 { assert all[i] == ms[i - 1] && at[i] == later[i - 1]; }
    }
  }

  /** Where the turn that delivers finds its message. */
  lemma DeliveredStands(net: Net, buf: Data) returns (p: nat)
    requires Usable(net) && TakeTurn(net, buf).Deliver?
    ensures var t := TakeTurn(net, buf);
            && StandsAt(net, buf, t.m, p) && p + |Frame(net, t.m)| <= |buf| && t.rest == buf[p + |Frame(net, t.m)|..]
  {
    hide ValidHeader, Frame, Find, Sendable;
    p := Find(buf, net.start);
    var h, body := buf[p..][..HEADER_SIZE], buf[p..][HEADER_SIZE..];
    var payload := body[..SizeOf(h)];
    StandsAsSent(net, h, payload);
    assert h + payload == buf[p..][..HEADER_SIZE + |payload|];
    assert body[|payload|..] == buf[p + (HEADER_SIZE + |payload|)..];
  }

  lemma SkippedRest(net: Net, buf: Data) returns (d: nat)
    requires Usable(net) && TakeTurn(net, buf).Skip?
    ensures d <= |buf| && TakeTurn(net, buf).rest == buf[d..]
  {
    hide ValidHeader, Find;
    d := Find(buf, net.start) + HEADER_SIZE;
    assert buf[Find(buf, net.start)..][HEADER_SIZE..] == buf[d..];
  }

  /**
   Whatever bytes arrive, every message delivered stands among them as the frame a sender writes for it, in
   the order delivered and without overlap.
   */
  lemma {:induction false} OnlyGenuine(net: Net, buf: Data) returns (places: seq<nat>)
    requires Usable(net)
    ensures Genuine(net, buf, Parse(net, buf).delivered, places)
    decreases |buf|
  {
    hide TakeTurn, Frame, Genuine, StandsAt;
    match TakeTurn(net, buf)
    case Wait(kept) =>
      places := [];
      NoneGenuine(net, buf);
    case Skip(rest) =>
      var d := SkippedRest(net, buf);
      var at := OnlyGenuine(net, rest);
      GenuineLater(net, buf, rest, d, Parse(net, rest).delivered, at);
      places := Moved(at, d);
    case Deliver(m, rest) =>
      var p := DeliveredStands(net, buf);
      var at := OnlyGenuine(net, rest);
      GenuineCons(net, buf, m, p, rest, Parse(net, rest).delivered, at);
      places := [p] + Moved(at, p + |Frame(net, m)|);
  }

  lemma NoneGenuine(net: Net, buf: Data)
    requires Usable(net)
    ensures Genuine(net, buf, [], [])
  {
  }

  /** The same for bytes that come in chunks. */
  lemma OnlyGenuineChunked(net: Net, chunks: seq<Data>) returns (places: seq<nat>)
    requires Usable(net)
    ensures Genuine(net, Joined(chunks), Fed(net, chunks).delivered, places)
  {
    hide Parse, Fed, Genuine;
    ChunksParse(net, chunks);
    places := OnlyGenuine(net, Joined(chunks));
  }
}
