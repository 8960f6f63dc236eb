/** `read_loop`: from a byte stream to delivered messages and pongs. */
module FrameReader {
  import opened Basics
  import opened Framing

  datatype Ending = Closed | Truncated

  /** The fragment buffer, the messages handed on, and the pong frames written. */
  datatype State = State(cur: Bytes, delivered: seq<Bytes>, sent: seq<Bytes>)

  /** Reads one frame as the loop does: header, extended length, payload. */
  function ReadFrame(s: Bytes): (r: Option<(Frame, Bytes)>)
    ensures r.Some? ==> |r.value.1| < |s|
  {
    if |s| < 2 then None
    else
      var len := ReadLength(s[1..]);
      if len.None? then None
      else
        var (n, body) := len.value;
        if |body| < n then None
        else Some((Frame(s[0] & 0x80 != 0, s[0] & 0x0f, body[..n]), body[n..]))
  }

  /** One frame other than a close; `keys(i)` is the masking key of the i-th pong. */
  function OnFrame(st: State, f: Frame, keys: nat -> Bytes): State
    requires forall i :: |keys(i)| == 4
  {
    if f.opcode == 0x9 then
      var pong := Send(0xA, f.payload, keys(|st.sent|));
      if pong.None? then st else st.(sent := st.sent + [pong.value])
    else if f.opcode == 0x0 then
      var cur := st.cur + f.payload;
      if f.fin then st.(cur := [], delivered := st.delivered + [cur]) else st.(cur := cur)
    else if f.opcode == 0x1 || f.opcode == 0x2 then
      if f.fin then st.(delivered := st.delivered + [f.payload]) else st.(cur := f.payload)
    else st
  }

  function Consume(s: Bytes, st: State, keys: nat -> Bytes): (State, Ending)
    requires forall i :: |keys(i)| == 4
    decreases |s|
  {
    var r := ReadFrame(s);
    if r.None? then (st, Truncated)
    else
      var (f, rest) := r.value;
      if f.opcode == 0x8 then (st, Closed) else Consume(rest, OnFrame(st, f, keys), keys)
  }

  method ReadLoop(stream: Bytes, keys: nat -> Bytes) returns (delivered: seq<Bytes>, sent: seq<Bytes>, ending: Ending)
    requires forall i :: |keys(i)| == 4
    ensures var (st, e) := Consume(stream, State([], [], []), keys);
      delivered == st.delivered && sent == st.sent && ending == e
  {
    var cur: Bytes := [];
    delivered, sent := [], [];
    var rest := stream;
    while true
      invariant Consume(rest, State(cur, delivered, sent), keys) == Consume(stream, State([], [], []), keys)
      decreases |rest|
    {
      var r := ReadFrame(rest);
      if r.None? {
        ending := Truncated;
        return;
      }
      var (f, tail) := r.value;
      rest := tail;
      if f.opcode == 0x9 {
        var pong := Send(0xA, f.payload, keys(|sent|));
        if pong.Some? { sent := sent + [pong.value]; }
      } else if f.opcode == 0x8 {
        ending := Closed;
        return;
      } else if f.opcode == 0x0 {
        cur := cur + f.payload;
        if f.fin {
          delivered := delivered + [cur];
          cur := [];
        }
      } else if f.opcode == 0x1 || f.opcode == 0x2 {
        if f.fin { delivered := delivered + [f.payload]; } else { cur := f.payload; }
      }
    }
  }

  // ---------- well-formed server streams ----------

  /** A server's frame on the wire: unmasked. */
  function Encode(f: Frame): Bytes
    requires ValidFrame(f)
  {
    [(if f.fin then 0x80 else 0) | f.opcode] + LengthField(|f.payload|, 0) + f.payload
  }

  predicate Control(f: Frame) { f.opcode >= 8 }

  /** Frames up to a close, if there is one: fragments follow their message's first frame, and
      only unfragmented control frames may come between them.  `open` tells whether a
      fragmented message is under way. */
  ghost predicate WellFormed(fs: seq<Frame>, open: bool) {
    fs == [] ||
    (ValidFrame(fs[0]) &&
     var f := fs[0];
     if f.opcode == 0x8 then f.fin && |f.payload| <= 125 && |fs| == 1
     else if f.opcode == 0x9 || f.opcode == 0xA then f.fin && |f.payload| <= 125 && WellFormed(fs[1..], open)
     else if f.opcode == 0x0 then open && WellFormed(fs[1..], !f.fin)
     else (f.opcode == 0x1 || f.opcode == 0x2) && !open && WellFormed(fs[1..], !f.fin))
  }

  ghost predicate Closes(fs: seq<Frame>) { fs != [] && fs[|fs| - 1].opcode == 0x8 }

  ghost function EncodeAll(fs: seq<Frame>): Bytes
    requires forall f :: f in fs ==> ValidFrame(f)
  {
    if fs == [] then [] else Encode(fs[0]) + EncodeAll(fs[1..])
  }

  lemma ReadEncoded(f: Frame, rest: Bytes)
    requires ValidFrame(f)
    ensures ReadFrame(Encode(f) + rest) == Some((f, rest))
  {
    var s := Encode(f) + rest;
    var body := f.payload + rest;
    assert s[1..] == LengthField(|f.payload|, 0) + body;
    LengthRoundTrip(|f.payload|, 0, body);
    FirstByte(if f.fin then 0x80 else 0, f.opcode);
    assert body[..|f.payload|] == f.payload && body[|f.payload|..] == rest;
  }

  /** Anything short of a whole frame is not taken for one. */
  lemma CutShort(f: Frame, k: nat)
    requires ValidFrame(f) && k < |Encode(f)|
    ensures ReadFrame(Encode(f)[..k]) == None
  {
    var n, field, s := |f.payload|, LengthField(|f.payload|, 0), Encode(f)[..k];
    if k > |field| {
      var body := f.payload[..k - 1 - |field|];
      assert s[1..] == field + body;
      LengthRoundTrip(n, 0, body);
    } else if k >= 2 {
      FieldLayout(n, 0);
      assert s[1] == field[0];
      if n < LIMIT16 { LowBits(0, 126); } else { LowBits(0, 127); }
    }
  }

  // ---------- what a conforming reader must deliver ----------

  /** The data frames, control frames left out. */
  ghost function Data(fs: seq<Frame>): seq<Frame> {
    if fs == [] then [] else (if Control(fs[0]) then [] else [fs[0]]) + Data(fs[1..])
  }

  ghost function Pings(fs: seq<Frame>): seq<Bytes> {
    if fs == [] then [] else (if fs[0].opcode == 0x9 then [fs[0].payload] else []) + Pings(fs[1..])
  }

  ghost function Joined(ds: seq<Frame>): Bytes {
    if ds == [] then [] else Joined(ds[..|ds| - 1]) + ds[|ds| - 1].payload
  }

  /** Number of data frames up to the first final one, or all of them. */
  ghost function Fragments(ds: seq<Frame>): (n: nat)
    ensures n <= |ds|
  {
    if ds == [] then 0 else if ds[0].fin then 0 else 1 + Fragments(ds[1..])
  }

  /** The messages: each joins the fragments up to and including a final frame, in order. */
  ghost function Messages(ds: seq<Frame>): seq<Bytes>
    decreases |ds|
  {
    var n := Fragments(ds);
    if n == |ds| then [] else [Joined(ds[..n + 1])] + Messages(ds[n + 1..])
  }

  lemma {:induction false} FragmentsOf(pend: seq<Frame>, f: Frame, rest: seq<Frame>)
    requires (forall i :: 0 <= i < |pend| ==> !pend[i].fin) && f.fin
    ensures Fragments(pend + [f] + rest) == |pend|
    decreases |pend|
  {
    var ds := pend + [f] + rest;
    if pend != [] {
      assert ds[1..] == pend[1..] + [f] + rest;
      FragmentsOf(pend[1..], f, rest);
    }
  }

  lemma {:induction false} NoneFinal(pend: seq<Frame>)
    requires forall i :: 0 <= i < |pend| ==> !pend[i].fin
    ensures Fragments(pend) == |pend|
  {
    if pend != [] { NoneFinal(pend[1..]); }
  }

  lemma FinalFrame(pend: seq<Frame>, f: Frame, rest: seq<Frame>)
    requires (forall i :: 0 <= i < |pend| ==> !pend[i].fin) && f.fin
    ensures Messages(pend + [f] + rest) == [Joined(pend) + f.payload] + Messages(rest)
  {
    var ds := pend + [f] + rest;
    FragmentsOf(pend, f, rest);
    assert ds[..|pend| + 1] == pend + [f];
    assert (pend + [f])[..|pend|] == pend;
    assert ds[|pend| + 1..] == rest;
  }

  // ---------- the loop delivers exactly that ----------

  /** Pong frames for the ping payloads, the first answered with key number `i`. */
  ghost function Pongs(ps: seq<Bytes>, i: nat, keys: nat -> Bytes): seq<Bytes>
    requires forall j :: |keys(j)| == 4
  {
    if ps == [] then []
    else
      var pong := Send(0xA, ps[0], keys(i));
      (if pong.None? then [] else [pong.value]) + Pongs(ps[1..], if pong.None? then i else i + 1, keys)
  }

  /** What the loop must have done when the frames are consumed, with `pend` the fragments
      buffered before. */
  ghost predicate Delivers(st: State, st': State, pend: seq<Frame>, fs: seq<Frame>, keys: nat -> Bytes)
    requires forall j :: |keys(j)| == 4
  {
    && st'.delivered == st.delivered + Messages(pend + Data(fs))
    && st'.sent == st.sent + Pongs(Pings(fs), |st.sent|, keys)
  }

  ghost predicate Pending(st: State, pend: seq<Frame>, open: bool) {
    && (forall i :: 0 <= i < |pend| ==> !pend[i].fin)
    && (open <==> pend != []) && (open ==> st.cur == Joined(pend))
  }

  lemma JoinedStep(pend: seq<Frame>, f: Frame)
    ensures Joined(pend + [f]) == Joined(pend) + f.payload
  {
    assert (pend + [f])[..|pend|] == pend;
  }

  lemma Regroup(a: seq<Bytes>, b: seq<Bytes>, c: seq<Bytes>)
    ensures (a + b) + c == a + (b + c)
  {
  }

  /** One data frame: the buffered fragments and the deliveries move on together. */
  lemma DataFrame(st: State, f: Frame, pend: seq<Frame>, open: bool, keys: nat -> Bytes)
    requires forall j :: |keys(j)| == 4
    requires Pending(st, pend, open) && if open then f.opcode == 0x0 else f.opcode == 0x1 || f.opcode == 0x2
    ensures var next := OnFrame(st, f, keys);
      && Pending(next, if f.fin then [] else pend + [f], !f.fin)
      && next.delivered == st.delivered + (if f.fin then [Joined(pend) + f.payload] else [])
      && next.sent == st.sent
  {
    JoinedStep(pend, f);
    if !open { assert Joined(pend) + f.payload == f.payload; }
  }

  lemma MessagesStep(pend: seq<Frame>, f: Frame, ds: seq<Frame>)
    requires forall i :: 0 <= i < |pend| ==> !pend[i].fin
    ensures Messages(pend + ([f] + ds))
         == if f.fin then [Joined(pend) + f.payload] + Messages([] + ds) else Messages(pend + [f] + ds)
  {
    assert pend + ([f] + ds) == pend + [f] + ds && [] + ds == ds;
    if f.fin { FinalFrame(pend, f, ds); }
  }

  lemma ConsumeStep(fs: seq<Frame>, st: State, rest: Bytes, keys: nat -> Bytes)
    requires forall j :: |keys(j)| == 4
    requires fs != [] && forall f :: f in fs ==> ValidFrame(f)
    ensures Consume(EncodeAll(fs) + rest, st, keys)
         == if fs[0].opcode == 0x8 then (st, Closed)
            else Consume(EncodeAll(fs[1..]) + rest, OnFrame(st, fs[0], keys), keys)
  {
    var tail := EncodeAll(fs[1..]) + rest;
    assert EncodeAll(fs) + rest == Encode(fs[0]) + tail;
    ReadEncoded(fs[0], tail);
  }

  /** In every stream, conforming or not, a frame with any other opcode is passed over. */
  lemma {:induction false} OthersIgnored(a: seq<Frame>, f: Frame, b: seq<Frame>, st: State, rest: Bytes, keys: nat -> Bytes)
    requires (forall j :: |keys(j)| == 4) && forall x :: x in a + [f] + b ==> ValidFrame(x)
    requires f.opcode != 0x0 && f.opcode != 0x1 && f.opcode != 0x2 && f.opcode != 0x8 && f.opcode != 0x9
    ensures forall x :: x in a + b ==> ValidFrame(x)
    ensures Consume(EncodeAll(a + [f] + b) + rest, st, keys) == Consume(EncodeAll(a + b) + rest, st, keys)
    decreases |a|
  {
    assert forall x :: x in a + b ==> x in a + [f] + b;
    ConsumeStep(a + [f] + b, st, rest, keys);
    if a == [] {
      assert (a + [f] + b)[1..] == b && a + b == b;
    } else {
      assert (a + [f] + b)[1..] == a[1..] + [f] + b && (a + b)[1..] == a[1..] + b;
      assert forall x :: x in a[1..] + [f] + b ==> x in a + [f] + b;
      ConsumeStep(a + b, st, rest, keys);
      OthersIgnored(a[1..], f, b, OnFrame(st, a[0], keys), rest, keys);
    }
  }

  lemma DeliversData(st: State, f: Frame, fs: seq<Frame>, pend: seq<Frame>, open: bool, keys: nat -> Bytes, st': State)
    requires forall j :: |keys(j)| == 4
    requires fs != [] && fs[0] == f && Pending(st, pend, open)
    requires if open then f.opcode == 0x0 else f.opcode == 0x1 || f.opcode == 0x2
    requires Delivers(OnFrame(st, f, keys), st', if f.fin then [] else pend + [f], fs[1..], keys)
    ensures Delivers(st, st', pend, fs, keys)
  {
    DataFrame(st, f, pend, open, keys);
    var ds := Data(fs[1..]);
    MessagesStep(pend, f, ds);
    assert Data(fs) == [f] + ds && Pings(fs) == Pings(fs[1..]);
    if f.fin { Regroup(st.delivered, [Joined(pend) + f.payload], Messages([] + ds)); }
  }

  lemma PongsStep(p: Bytes, ps: seq<Bytes>, i: nat, keys: nat -> Bytes)
    requires (forall j :: |keys(j)| == 4) && |p| < LIMIT64
    ensures Pongs([p] + ps, i, keys) == [Send(0xA, p, keys(i)).value] + Pongs(ps, i + 1, keys)
  {
    assert ([p] + ps)[1..] == ps;
  }

  lemma PingFirst(fs: seq<Frame>)
    requires fs != [] && fs[0].opcode == 0x9
    ensures Data(fs) == Data(fs[1..]) && Pings(fs) == [fs[0].payload] + Pings(fs[1..])
  {
  }

  lemma OnPing(st: State, f: Frame, keys: nat -> Bytes)
    requires (forall j :: |keys(j)| == 4) && f.opcode == 0x9 && ValidFrame(f)
    ensures Send(0xA, f.payload, keys(|st.sent|)).Some?
    ensures OnFrame(st, f, keys) == st.(sent := st.sent + [Send(0xA, f.payload, keys(|st.sent|)).value])
  {
  }

  lemma DeliversPing(st: State, f: Frame, fs: seq<Frame>, pend: seq<Frame>, keys: nat -> Bytes, st': State)
    requires forall j :: |keys(j)| == 4
    requires fs != [] && fs[0] == f && f.opcode == 0x9 && ValidFrame(f)
    requires Delivers(OnFrame(st, f, keys), st', pend, fs[1..], keys)
    ensures Delivers(st, st', pend, fs, keys)
  {
    var n, ps := |st.sent|, Pings(fs[1..]);
    OnPing(st, f, keys);
    PingFirst(fs);
    var pong := Send(0xA, f.payload, keys(n)).value;
    PongsStep(f.payload, ps, n, keys);
    Regroup(st.sent, [pong], Pongs(ps, n + 1, keys));
  }

  lemma DeliversPong(st: State, f: Frame, fs: seq<Frame>, pend: seq<Frame>, keys: nat -> Bytes, st': State)
    requires forall j :: |keys(j)| == 4
    requires fs != [] && fs[0] == f && f.opcode == 0xA
    requires Delivers(OnFrame(st, f, keys), st', pend, fs[1..], keys)
    ensures Delivers(st, st', pend, fs, keys)
  {
    assert Data(fs) == Data(fs[1..]) && Pings(fs) == Pings(fs[1..]);
  }

  /** The stream of `fs` and `rest`, consumed from `st`, ends as it should. */
  ghost predicate Conforms(fs: seq<Frame>, pend: seq<Frame>, st: State, rest: Bytes, keys: nat -> Bytes)
    requires (forall j :: |keys(j)| == 4) && forall f :: f in fs ==> ValidFrame(f)
  {
    var (st', e) := Consume(EncodeAll(fs) + rest, st, keys);
    e == (if Closes(fs) then Closed else Truncated) && Delivers(st, st', pend, fs, keys)
  }

  lemma BreaksOff(pend: seq<Frame>, open: bool, st: State, rest: Bytes, keys: nat -> Bytes)
    requires (forall j :: |keys(j)| == 4) && Pending(st, pend, open) && ReadFrame(rest) == None
    ensures Conforms([], pend, st, rest, keys)
  {
    NoneFinal(pend);
    assert EncodeAll([]) + rest == rest && pend + Data([]) == pend;
  }

  lemma ClosesDown(fs: seq<Frame>, pend: seq<Frame>, open: bool, st: State, rest: Bytes, keys: nat -> Bytes)
    requires (forall j :: |keys(j)| == 4) && Pending(st, pend, open) && forall f :: f in fs ==> ValidFrame(f)
    requires |fs| == 1 && fs[0].opcode == 0x8
    ensures Conforms(fs, pend, st, rest, keys)
  {
    ConsumeStep(fs, st, rest, keys);
    NoneFinal(pend);
    assert Data(fs) == [] && pend + Data(fs) == pend && fs[1..] == [];
  }

  lemma ConformsControl(fs: seq<Frame>, pend: seq<Frame>, st: State, rest: Bytes, keys: nat -> Bytes)
    requires (forall j :: |keys(j)| == 4) && forall f :: f in fs ==> ValidFrame(f)
    requires fs != [] && (fs[0].opcode == 0x9 || fs[0].opcode == 0xA)
    requires Conforms(fs[1..], pend, OnFrame(st, fs[0], keys), rest, keys)
    ensures Conforms(fs, pend, st, rest, keys)
  {
    ConsumeStep(fs, st, rest, keys);
    var st' := Consume(EncodeAll(fs) + rest, st, keys).0;
    if fs[0].opcode == 0x9 { DeliversPing(st, fs[0], fs, pend, keys, st'); } else { DeliversPong(st, fs[0], fs, pend, keys, st'); }
  }

  lemma ConformsData(fs: seq<Frame>, open: bool, pend: seq<Frame>, st: State, rest: Bytes, keys: nat -> Bytes)
    requires (forall j :: |keys(j)| == 4) && Pending(st, pend, open) && forall f :: f in fs ==> ValidFrame(f)
    requires fs != [] && if open then fs[0].opcode == 0x0 else fs[0].opcode == 0x1 || fs[0].opcode == 0x2
    requires Conforms(fs[1..], if fs[0].fin then [] else pend + [fs[0]], OnFrame(st, fs[0], keys), rest, keys)
    ensures Conforms(fs, pend, st, rest, keys)
  {
    ConsumeStep(fs, st, rest, keys);
    DeliversData(st, fs[0], fs, pend, open, keys, Consume(EncodeAll(fs) + rest, st, keys).0);
  }

  /** Frames that fit, followed by anything after a close, or by less than a frame. */
  ghost predicate Fits(fs: seq<Frame>, rest: Bytes) {
    (forall f :: f in fs ==> ValidFrame(f)) && (Closes(fs) || ReadFrame(rest) == None)
  }

  lemma TailFits(fs: seq<Frame>, rest: Bytes)
    requires Fits(fs, rest) && fs != [] && fs[0].opcode != 0x8
    ensures Fits(fs[1..], rest)
  {
    assert forall f :: f in fs[1..] ==> f in fs;
  }

  lemma ControlKeeps(st: State, f: Frame, pend: seq<Frame>, open: bool, keys: nat -> Bytes)
    requires (forall j :: |keys(j)| == 4) && Pending(st, pend, open) && (f.opcode == 0x9 || f.opcode == 0xA)
    ensures Pending(OnFrame(st, f, keys), pend, open)
  {
  }

  lemma {:induction false} ConsumeFrames(fs: seq<Frame>, open: bool, pend: seq<Frame>, st: State, rest: Bytes, keys: nat -> Bytes)
    requires (forall j :: |keys(j)| == 4) && WellFormed(fs, open) && Pending(st, pend, open) && Fits(fs, rest)
    ensures Conforms(fs, pend, st, rest, keys)
    decreases |fs|
  {
    if fs == [] {
      BreaksOff(pend, open, st, rest, keys);
    } else if fs[0].opcode == 0x8 {
      ClosesDown(fs, pend, open, st, rest, keys);
    } else {
      TailFits(fs, rest);
      var next := OnFrame(st, fs[0], keys);
      if fs[0].opcode == 0x9 || fs[0].opcode == 0xA {
        ControlKeeps(st, fs[0], pend, open, keys);
        ConsumeFrames(fs[1..], open, pend, next, rest, keys);
        ConformsControl(fs, pend, st, rest, keys);
      } else {
        DataFrame(st, fs[0], pend, open, keys);
        ConsumeFrames(fs[1..], !fs[0].fin, if fs[0].fin then [] else pend + [fs[0]], next, rest, keys);
        ConformsData(fs, open, pend, st, rest, keys);
      }
    }
  }

  /** `sent` decodes, frame by frame, to final pongs that carry the payloads `ps`. */
  ghost predicate Answers(sent: seq<Bytes>, ps: seq<Bytes>) {
    |sent| == |ps| && forall k :: 0 <= k < |ps| ==> Decode(sent[k]) == Some((Frame(true, 0xA, ps[k]), []))
  }

  lemma PongDecodes(p: Bytes, key: Bytes)
    requires |key| == 4 && |p| < LIMIT64
    ensures Send(0xA, p, key).Some? && Decode(Send(0xA, p, key).value) == Some((Frame(true, 0xA, p), []))
  {
    SendRoundTrip(0xA, p, key, []);
    assert Send(0xA, p, key).value + [] == Send(0xA, p, key).value;
  }

  lemma AnswersFirst(pong: Bytes, p: Bytes, sent: seq<Bytes>, ps: seq<Bytes>)
    requires Decode(pong) == Some((Frame(true, 0xA, p), [])) && Answers(sent, ps)
    ensures Answers([pong] + sent, [p] + ps)
  {
  }

  lemma {:induction false} PongsAnswer(ps: seq<Bytes>, i: nat, keys: nat -> Bytes)
    requires (forall j :: |keys(j)| == 4) && forall k :: 0 <= k < |ps| ==> |ps[k]| < LIMIT64
    ensures Answers(Pongs(ps, i, keys), ps)
  {
    if ps != [] {
      PongDecodes(ps[0], keys(i));
      PongsAnswer(ps[1..], i + 1, keys);
      AnswersFirst(Send(0xA, ps[0], keys(i)).value, ps[0], Pongs(ps[1..], i + 1, keys), ps[1..]);
      assert ps == [ps[0]] + ps[1..];
    }
  }

  lemma {:induction false} PingsFit(fs: seq<Frame>)
    requires forall f :: f in fs ==> ValidFrame(f)
    ensures forall k :: 0 <= k < |Pings(fs)| ==> |Pings(fs)[k]| < LIMIT64
  {
    if fs != [] {
      assert ValidFrame(fs[0]) && forall f :: f in fs[1..] ==> f in fs;
      PingsFit(fs[1..]);
    }
  }

  /** For every well-formed unmasked server stream the loop delivers exactly the joined messages in
      order, and answers each ping, in order, with a frame that decodes to a pong with its
      payload.  It ends at the close, whatever follows it, or where the stream breaks off. */
  lemma ReadLoopConforms(fs: seq<Frame>, rest: Bytes, keys: nat -> Bytes)
    requires (forall j :: |keys(j)| == 4) && WellFormed(fs, false) && Fits(fs, rest)
    ensures var (st, e) := Consume(EncodeAll(fs) + rest, State([], [], []), keys);
      && e == (if Closes(fs) then Closed else Truncated)
      && st.delivered == Messages(Data(fs))
      && Answers(st.sent, Pings(fs))
  {
    ConsumeFrames(fs, false, [], State([], [], []), rest, keys);
    PingsFit(fs);
    PongsAnswer(Pings(fs), 0, keys);
    assert [] + Data(fs) == Data(fs);
  }
}
