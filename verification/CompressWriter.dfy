/** A response writer that holds the start of a body back until it knows whether
    compressing is worth it, then compresses everything or passes everything through.
 */
module CompressWriter {
  import opened Basics

  /** The header map as the backend left it: whether it already has a Content-Encoding, whether
      its Content-Type is on the list, its Content-Length, its entity tag's strength and
      whether Vary already covers Accept-Encoding. */
  datatype Head = Head(encoded: bool, wanted: bool, length: Option<nat>, strongTag: bool, varies: bool)

  datatype GzOp = GzWrite(b: seq<Byte>) | GzFlush | GzClose

  /** What goes downstream: one status line, plain bytes, or work for the gzip writer. */
  datatype Out = StatusLine(status: int, head: Head, gzip: bool) | Raw(b: seq<Byte>) | Gz(op: GzOp)

  datatype State = State(
    decided: bool, compressing: bool, status: int, wroteHeader: bool,
    buf: seq<Byte>, gzOpen: bool, head: Head, out: seq<Out>)

  function Fresh(head: Head): State { State(false, false, 0, false, [], false, head, []) }

  predicate Bodyless(status: int) { status == 204 || status == 304 || status < 200 }

  predicate TooShort(head: Head, min: int) { head.length.Some? && head.length.value < min }

  function StatusOrOK(c: State): int { if c.status == 0 then 200 else c.status }

  /** Commits to sending the body as it is. */
  function PassThrough(c: State): State {
    c.(decided := true, compressing := false, out := c.out + [StatusLine(StatusOrOK(c), c.head, false)])
  }

  /** Commits to compressing: the length is unknown from here on and the tag is only weak. */
  function Compress(c: State): State {
    var h := c.head.(encoded := true, length := None, strongTag := false);
    c.(decided := true, compressing := true, gzOpen := true, head := h,
       out := c.out + [StatusLine(StatusOrOK(c), h, true)])
  }

  function Start(c: State, compress: bool): State {
    if c.decided then c else if compress then Compress(c) else PassThrough(c)
  }

  function OnHeader(c: State, min: int, status: int): State {
    if c.wroteHeader then c
    else
      var d := c.(wroteHeader := true, status := status);
      if Bodyless(status) || c.head.encoded || !c.head.wanted then
        d.(decided := true, compressing := false, out := d.out + [StatusLine(status, d.head, false)])
      else
        var v := d.(head := d.head.(varies := true));
        if TooShort(v.head, min)
        then v.(decided := true, compressing := false, out := v.out + [StatusLine(status, v.head, false)])
        else v
  }

  function Pass(c: State, p: seq<Byte>): State {
    c.(out := c.out + [if c.compressing then Gz(GzWrite(p)) else Raw(p)])
  }

  function OnWrite(c: State, min: int, p: seq<Byte>): State {
    var h := if c.wroteHeader then c else OnHeader(c, min, 200);
    if h.decided then Pass(h, p)
    else
      var held := h.(buf := h.buf + p);
      if |held.buf| < min then held else Pass(Start(held, true).(buf := []), held.buf)
  }

  function OnFlush(c: State, min: int): State {
    if !c.decided && c.buf == [] then c
    else
      var s := if c.decided then c else Pass(Start(c, |c.buf| >= min).(buf := []), c.buf);
      if s.compressing && s.gzOpen then s.(out := s.out + [Gz(GzFlush)]) else s
  }

  function OnClose(c: State): State {
    if !c.decided then
      var s := Start(c, false);
      if c.buf == [] then s else Pass(s.(buf := []), c.buf)
    else if c.compressing && c.gzOpen then c.(gzOpen := false, out := c.out + [Gz(GzClose)])
    else c
  }

  // ----- the writer as the proxy runs it -----

  class Writer {
    const min: int
    var decided: bool
    var compressing: bool
    var status: int
    var wroteHeader: bool
    var buf: seq<Byte>
    var gzOpen: bool
    var head: Head
    var out: seq<Out>

    ghost function Now(): State
      reads this
    {
      State(decided, compressing, status, wroteHeader, buf, gzOpen, head, out)
    }

    constructor (min: int, head: Head)
      ensures this.min == min && Now() == Fresh(head)
    {
      this.min, this.head := min, head;
      decided, compressing, status, wroteHeader, buf, gzOpen, out := false, false, 0, false, [], false, [];
    }

    method Decide(compress: bool)
      modifies `decided, `compressing
      ensures decided && compressing == compress
    {
      decided, compressing := true, compress;
    }

    method WriteHeader(s: int)
      modifies this
      ensures Now() == OnHeader(old(Now()), min, s)
    {
      if wroteHeader { return; }
      status := s;
      wroteHeader := true;
      if Bodyless(s) || head.encoded || !head.wanted {
        Decide(false);
        out := out + [StatusLine(s, head, false)];
        return;
      }
      head := head.(varies := true);
      if TooShort(head, min) {
        Decide(false);
        out := out + [StatusLine(s, head, false)];
      }
    }

    method Commit(compress: bool)
      modifies this
      ensures Now() == Start(old(Now()), compress)
    {
      if decided { return; }
      Decide(compress);
      if compress {
        head := head.(encoded := true, length := None, strongTag := false);
        gzOpen := true;
      }
      out := out + [StatusLine(if status == 0 then 200 else status, head, compress)];
    }

    method Forward(p: seq<Byte>)
      modifies `out
      ensures Now() == Pass(old(Now()), p)
    {
      if compressing { out := out + [Gz(GzWrite(p))]; } else { out := out + [Raw(p)]; }
    }

    method Write(p: seq<Byte>)
      modifies this
      ensures Now() == OnWrite(old(Now()), min, p)
    {
      if !wroteHeader { WriteHeader(200); }
      if decided {
        Forward(p);
        return;
      }
      buf := buf + p;
      if |buf| < min { return; }
      Commit(true);
      var held := buf;
      buf := [];
      Forward(held);
    }

    method Flush()
      modifies this
      ensures Now() == OnFlush(old(Now()), min)
    {
      if !decided {
        if |buf| == 0 { return; }
        Commit(|buf| >= min);
        var held := buf;
        buf := [];
        Forward(held);
      }
      if compressing && gzOpen { out := out + [Gz(GzFlush)]; }
    }

    method Close()
      modifies this
      ensures Now() == OnClose(old(Now()))
    {
      if !decided {
        Commit(false);
        if |buf| > 0 {
          out := out + [Raw(buf)];
          buf := [];
        }
        return;
      }
      if compressing && gzOpen {
        out := out + [Gz(GzClose)];
        gzOpen := false;
      }
    }
  }

  // ----- every call sequence -----

  datatype Call = WriteHeader(status: int) | Write(p: seq<Byte>) | Flush

  function Step(c: State, min: int, call: Call): State {
    match call
    case WriteHeader(status) => OnHeader(c, min, status)
    case Write(p) => OnWrite(c, min, p)
    case Flush => OnFlush(c, min)
  }

  function Run(head: Head, min: int, calls: seq<Call>): State {
    if calls == [] then Fresh(head)
    else Step(Run(head, min, calls[..|calls| - 1]), min, calls[|calls| - 1])
  }

  function Closed(head: Head, min: int, calls: seq<Call>): State {
    OnClose(Run(head, min, calls))
  }

  /** All the bytes handed to the writer. */
  function Written(calls: seq<Call>): seq<Byte> {
    if calls == [] then []
    else
      var last := calls[|calls| - 1];
      Written(calls[..|calls| - 1]) + (if last.Write? then last.p else [])
  }

  /** The plain content of what went downstream. */
  function Content(out: seq<Out>): seq<Byte> {
    if out == [] then []
    else
      var last := out[|out| - 1];
      Content(out[..|out| - 1])
      + (match last
         case Raw(b) => b
         case Gz(GzWrite(b)) => b
         case _ => [])
  }

  /** A status line first and nowhere else; plain bytes only, or gzip work only. */
  ghost predicate Framed(out: seq<Out>, gzip: bool) {
    && out != [] && out[0].StatusLine? && out[0].gzip == gzip
    && forall i :: 1 <= i < |out| ==> if gzip then out[i].Gz? else out[i].Raw?
  }

  ghost predicate NoClose(out: seq<Out>) {
    forall i :: 0 <= i < |out| ==> out[i] != Gz(GzClose)
  }

  /** What holds after any calls before Close. */
  ghost predicate Invariant(c: State, min: int, written: seq<Byte>) {
    && (!c.wroteHeader ==> !c.decided && c.buf == [])
    && (c.decided ==> c.buf == [] && Framed(c.out, c.compressing) && NoClose(c.out) && c.gzOpen == c.compressing)
    && (!c.decided ==> c.out == [] && !c.compressing && !c.gzOpen && (c.buf == [] || |c.buf| < min))
    && Content(c.out) + c.buf == written
  }

  lemma ContentOfAppend(out: seq<Out>, o: Out)
    ensures Content(out + [o]) == Content(out) + (match o case Raw(b) => b case Gz(GzWrite(b)) => b case _ => [])
  {
    assert (out + [o])[..|out|] == out;
  }

  lemma PassKeeps(c: State, min: int, written: seq<Byte>, p: seq<Byte>)
    requires c.decided && Invariant(c, min, written)
    ensures Invariant(Pass(c, p), min, written + p)
  {
    var o := if c.compressing then Gz(GzWrite(p)) else Raw(p);
    ContentOfAppend(c.out, o);
    assert Content(c.out) + [] == written;
    assert Content(c.out + [o]) + [] == written + p;
  }

  lemma StatusLineOnly(o: Out)
    requires o.StatusLine?
    ensures Content([o]) == []
  {
    ContentOfAppend([], o);
    assert [] + [o] == [o];
  }

  /** Settled, with nothing sent but the status line. */
  lemma SettledClean(s: State, o: Out, min: int)
    requires s.decided && s.wroteHeader && s.buf == [] && s.gzOpen == s.compressing
    requires s.out == [o] && o.StatusLine? && o.gzip == s.compressing
    ensures Invariant(s, min, [])
  {
    StatusLineOnly(o);
  }

  lemma StartClean(c: State, min: int, compress: bool)
    requires !c.decided && c.wroteHeader && c.out == [] && !c.compressing && !c.gzOpen
    ensures Invariant(Start(c, compress).(buf := []), min, [])
  {
    var s := Start(c, compress).(buf := []);
    assert s.out == [s.out[0]];
    SettledClean(s, s.out[0], min);
  }

  lemma StartKeeps(c: State, min: int, compress: bool, written: seq<Byte>)
    requires !c.decided && c.wroteHeader && c.out == [] && !c.compressing && !c.gzOpen
    requires c.buf == written
    ensures Invariant(Pass(Start(c, compress).(buf := []), c.buf), min, written)
  {
    StartClean(c, min, compress);
    PassKeeps(Start(c, compress).(buf := []), min, [], c.buf);
    assert [] + c.buf == written;
  }

  lemma HeaderKeeps(c: State, min: int, status: int, written: seq<Byte>)
    requires Invariant(c, min, written)
    ensures Invariant(OnHeader(c, min, status), min, written) && OnHeader(c, min, status).wroteHeader
  {
    var d := OnHeader(c, min, status);
    if !c.wroteHeader && d.decided {
      assert d.out == [d.out[0]];
      SettledClean(d, d.out[0], min);
    }
  }

  lemma WriteKeeps(c: State, min: int, p: seq<Byte>, written: seq<Byte>)
    requires Invariant(c, min, written)
    ensures Invariant(OnWrite(c, min, p), min, written + p)
  {
    HeaderKeeps(c, min, 200, written);
    var h := if c.wroteHeader then c else OnHeader(c, min, 200);
    if h.decided {
      PassKeeps(h, min, written, p);
    } else {
      assert h.buf == written;
      var held := h.(buf := h.buf + p);
      if |held.buf| >= min {
        StartKeeps(held, min, true, written + p);
      }
    }
  }

  lemma FlushKeeps(c: State, min: int, written: seq<Byte>)
    requires Invariant(c, min, written)
    ensures Invariant(OnFlush(c, min), min, written)
  {
    if c.decided || c.buf != [] {
      if !c.decided {
        assert Content(c.out) + c.buf == c.buf;
        StartKeeps(c, min, |c.buf| >= min, written);
      }
      var s := if c.decided then c else Pass(Start(c, |c.buf| >= min).(buf := []), c.buf);
      ContentOfAppend(s.out, Gz(GzFlush));
      assert Content(s.out) + [] == Content(s.out);
    }
  }

  /** After any calls the undecided buffer is shorter than the threshold, nothing has gone out
      before the decision, and what went out plus what is held is what was written. */
  lemma {:induction false} RunKeeps(head: Head, min: int, calls: seq<Call>)
    ensures Invariant(Run(head, min, calls), min, Written(calls))
  {
    if calls != [] {
      var init, last := calls[..|calls| - 1], calls[|calls| - 1];
      RunKeeps(head, min, init);
      var c := Run(head, min, init);
      match last
      case WriteHeader(status) =>
        HeaderKeeps(c, min, status, Written(init));
        assert Written(calls) == Written(init);
      case Write(p) => WriteKeeps(c, min, p, Written(init));
      case Flush =>
        FlushKeeps(c, min, Written(init));
        assert Written(calls) == Written(init);
    }
  }

  /** A flush never starts compression: what it finds held is always below the threshold. */
  lemma FlushNeverCompresses(head: Head, min: int, calls: seq<Call>)
    requires !Run(head, min, calls).decided
    ensures !OnFlush(Run(head, min, calls), min).compressing
  {
    RunKeeps(head, min, calls);
  }

  /** Closing a second time does nothing. */
  lemma ClosesOnce(head: Head, min: int, calls: seq<Call>)
    ensures OnClose(Closed(head, min, calls)) == Closed(head, min, calls)
  {
    RunKeeps(head, min, calls);
  }

  // ----- what the client gets -----

  /** Work given to the gzip writer. */
  function GzWork(out: seq<Out>): seq<GzOp> {
    if out == [] then []
    else GzWork(out[..|out| - 1]) + (if out[|out| - 1].Gz? then [out[|out| - 1].op] else [])
  }

  function Plain(ops: seq<GzOp>): seq<Byte> {
    if ops == [] then []
    else Plain(ops[..|ops| - 1]) + (if ops[|ops| - 1].GzWrite? then ops[|ops| - 1].b else [])
  }

  /** One close, at the end. */
  ghost predicate Finished(ops: seq<GzOp>) {
    ops != [] && forall i :: 0 <= i < |ops| ==> (ops[i].GzClose? <==> i == |ops| - 1)
  }

  function RawBytes(out: seq<Out>): seq<Byte> {
    if out == [] then []
    else RawBytes(out[..|out| - 1]) + (if out[|out| - 1].Raw? then out[|out| - 1].b else [])
  }

  /** The encoder turns gzip work into bytes; the decoder undoes any finished stream. */
  ghost predicate Inverse(enc: seq<GzOp> -> seq<Byte>, dec: seq<Byte> -> seq<Byte>) {
    forall ops :: Finished(ops) ==> dec(enc(ops)) == Plain(ops)
  }

  /** The body on the wire. */
  function Body(out: seq<Out>, enc: seq<GzOp> -> seq<Byte>): seq<Byte> {
    if out != [] && out[0].StatusLine? && out[0].gzip then enc(GzWork(out)) else RawBytes(out)
  }

  /** Undoes the encoding this writer announced, if it announced one. */
  function Undone(out: seq<Out>, body: seq<Byte>, dec: seq<Byte> -> seq<Byte>): seq<Byte> {
    if out != [] && out[0].StatusLine? && out[0].gzip then dec(body) else body
  }

  lemma GzWorkOfAppend(out: seq<Out>, o: Out)
    ensures GzWork(out + [o]) == GzWork(out) + if o.Gz? then [o.op] else []
  {
    assert (out + [o])[..|out|] == out;
  }

  lemma PlainOfAppend(ops: seq<GzOp>, op: GzOp)
    ensures Plain(ops + [op]) == Plain(ops) + if op.GzWrite? then op.b else []
  {
    assert (ops + [op])[..|ops|] == ops;
  }

  lemma {:induction false} FramedRaw(out: seq<Out>)
    requires Framed(out, false)
    ensures Content(out) == RawBytes(out)
  {
    var n := |out| - 1;
    if n > 0 {
      FramedRaw(out[..n]);
    } else {
      assert out[..n] == [];
    }
  }

  lemma FramedInit(out: seq<Out>, gzip: bool)
    requires Framed(out, gzip) && |out| > 1
    ensures Framed(out[..|out| - 1], gzip) && out == out[..|out| - 1] + [out[|out| - 1]]
  {}

  lemma {:induction false} FramedGzip(out: seq<Out>)
    requires Framed(out, true)
    ensures Content(out) == Plain(GzWork(out))
  {
    var n := |out| - 1;
    var init := out[..n];
    if n == 0 {
      assert out == [out[0]] && GzWork(out) == [] by { assert init == []; }
      StatusLineOnly(out[0]);
    } else {
      FramedInit(out, true);
      FramedGzip(init);
      ContentOfAppend(init, out[n]);
      GzWorkOfAppend(init, out[n]);
      PlainOfAppend(GzWork(init), out[n].op);
    }
  }

  lemma {:induction false} FramedOps(out: seq<Out>, i: nat)
    requires Framed(out, true) && 1 <= i <= |out|
    ensures |GzWork(out)| == |out| - 1
    ensures i < |out| ==> GzWork(out)[i - 1] == out[i].op
  {
    var n := |out| - 1;
    if n == 0 {
      assert out[..n] == [];
    } else {
      FramedInit(out, true);
      FramedOps(out[..n], if i < n then i else n);
      GzWorkOfAppend(out[..n], out[n]);
    }
  }

  lemma CloseUndecided(c: State, min: int, written: seq<Byte>)
    requires Invariant(c, min, written) && !c.decided
    ensures var d := OnClose(c);
            !d.compressing && Framed(d.out, false) && Content(d.out) == written && d.buf == []
  {
    var s := PassThrough(c);
    assert s.out == [s.out[0]];
    StatusLineOnly(s.out[0]);
    ContentOfAppend(s.out, Raw(c.buf));
    assert [] + c.buf == c.buf;
  }

  lemma CloseFrames(c: State, min: int, written: seq<Byte>)
    requires Invariant(c, min, written)
    ensures var d := OnClose(c);
            && Framed(d.out, d.compressing) && Content(d.out) == written && d.buf == []
            && (d.compressing ==> c.decided && d.out == c.out + [Gz(GzClose)])
  {
    if !c.decided {
      CloseUndecided(c, min, written);
    } else {
      ContentOfAppend(c.out, Gz(GzClose));
      assert Content(c.out) + [] == Content(c.out);
    }
  }

  /** For every call sequence ended by Close: one status line goes out, first; undoing the
      encoding it announces yields exactly the bytes written; and it announces one exactly when
      this writer encoded. */
  lemma StreamPreserved(head: Head, min: int, calls: seq<Call>, enc: seq<GzOp> -> seq<Byte>, dec: seq<Byte> -> seq<Byte>)
    requires Inverse(enc, dec)
    ensures var c := Closed(head, min, calls);
            && Framed(c.out, c.compressing) && c.buf == []
            && Undone(c.out, Body(c.out, enc), dec) == Written(calls)
  {
    RunKeeps(head, min, calls);
    var r, c := Run(head, min, calls), Closed(head, min, calls);
    CloseFrames(r, min, Written(calls));
    if !c.compressing {
      FramedRaw(c.out);
    } else {
      FramedGzip(c.out);
      FramedOps(c.out, |c.out|);
      var work := GzWork(c.out);
      forall i | 0 <= i < |work| ensures work[i].GzClose? <==> i == |work| - 1 {
        FramedOps(c.out, i + 1);
        if i < |work| - 1 { assert c.out[i + 1] == r.out[i + 1]; }
      }
      assert Finished(work);
    }
  }

  // ----- when it compresses -----

  /** The status the response goes out with, once something has fixed it. */
  function FirstStatus(calls: seq<Call>): Option<int> {
    if calls == [] then None
    else
      var earlier := FirstStatus(calls[..|calls| - 1]);
      if earlier.Some? then earlier
      else
        match calls[|calls| - 1]
        case WriteHeader(s) => Some(s)
        case Write(_) => Some(200)
        case Flush => None
  }

  /** A response with a body, of a listed type, not encoded yet, not declared too short. */
  predicate Eligible(status: int, head: Head, min: int) {
    !Bodyless(status) && !head.encoded && head.wanted && !TooShort(head, min)
  }

  /** Call k is a write that brings the body to the threshold. */
  ghost predicate Reaches(calls: seq<Call>, min: int, k: nat) {
    k < |calls| && calls[k].Write? && |Written(calls[..k + 1])| >= min
  }

  /** Call j is a flush with bytes behind it. */
  ghost predicate Pushes(calls: seq<Call>, j: nat) {
    j < |calls| && calls[j].Flush? && Written(calls[..j]) != []
  }

  /** The threshold is reached before any flush has bytes to push. */
  ghost predicate ReachesFirst(calls: seq<Call>, min: int) {
    exists k: nat :: Reaches(calls, min, k) && forall j: nat :: j < k ==> !Pushes(calls, j)
  }

  ghost predicate PushesFirst(calls: seq<Call>, min: int) {
    exists j: nat :: Pushes(calls, j) && forall k: nat :: k < j ==> !Reaches(calls, min, k)
  }

  ghost predicate Neither(calls: seq<Call>, min: int) {
    (forall k: nat :: !Reaches(calls, min, k)) && (forall j: nat :: !Pushes(calls, j))
  }

  ghost predicate Explained(c: State, head: Head, min: int, calls: seq<Call>) {
    match FirstStatus(calls)
    case None => !c.wroteHeader && !c.decided && c.head == head && Written(calls) == []
    case Some(status) =>
      c.wroteHeader &&
      if !Eligible(status, head, min) then c.decided && !c.compressing
      else if !c.decided then Neither(calls, min)
      else if c.compressing then ReachesFirst(calls, min)
      else PushesFirst(calls, min)
  }

  lemma PrefixSame(calls: seq<Call>, min: int, k: nat)
    requires calls != [] && k < |calls| - 1
    ensures Reaches(calls, min, k) == Reaches(calls[..|calls| - 1], min, k)
    ensures Pushes(calls, k) == Pushes(calls[..|calls| - 1], k)
  {
    var init := calls[..|calls| - 1];
    assert init[..k + 1] == calls[..k + 1] && init[..k] == calls[..k];
  }

  /** Once settled, more calls do not unsettle it. */
  lemma StaysFirst(calls: seq<Call>, min: int)
    requires calls != []
    ensures ReachesFirst(calls[..|calls| - 1], min) ==> ReachesFirst(calls, min)
    ensures PushesFirst(calls[..|calls| - 1], min) ==> PushesFirst(calls, min)
  {
    var init := calls[..|calls| - 1];
    forall k: nat | k < |init|
      ensures Reaches(calls, min, k) == Reaches(init, min, k) && Pushes(calls, k) == Pushes(init, k)
    {
      PrefixSame(calls, min, k);
    }
    if ReachesFirst(init, min) {
      var k: nat :| Reaches(init, min, k) && forall j: nat :: j < k ==> !Pushes(init, j);
      assert Reaches(calls, min, k);
    }
    if PushesFirst(init, min) {
      var j: nat :| Pushes(init, j) && forall k: nat :: k < j ==> !Reaches(init, min, k);
      assert Pushes(calls, j);
    }
  }

  /** While nothing was settled before it, the last call alone decides. */
  lemma LastDecides(calls: seq<Call>, min: int)
    requires calls != [] && Neither(calls[..|calls| - 1], min)
    ensures var n := |calls| - 1;
            && (Reaches(calls, min, n) ==> ReachesFirst(calls, min))
            && (Pushes(calls, n) ==> PushesFirst(calls, min))
            && (!Reaches(calls, min, n) && !Pushes(calls, n) ==> Neither(calls, min))
  {
    var n := |calls| - 1;
    forall k: nat | k < n ensures !Reaches(calls, min, k) && !Pushes(calls, k) {
      PrefixSame(calls, min, k);
    }
    forall k: nat | !(Reaches(calls, min, n) || Pushes(calls, n)) ensures !Reaches(calls, min, k) && !Pushes(calls, k) {
    }
  }

  lemma NothingYet(calls: seq<Call>, min: int)
    requires FirstStatus(calls).None?
    ensures Neither(calls, min)
  {
    if calls != [] {
      var init := calls[..|calls| - 1];
      NothingYet(init, min);
      QuietSoFar(calls);
      LastDecides(calls, min);
    }
  }

  lemma {:induction false} QuietSoFar(calls: seq<Call>)
    requires FirstStatus(calls).None?
    ensures Written(calls) == []
    ensures calls != [] ==> calls[|calls| - 1].Flush? && Written(calls[..|calls| - 1]) == []
  {
    if calls != [] { QuietSoFar(calls[..|calls| - 1]); }
  }

  lemma ExplainStep(c: State, head: Head, min: int, calls: seq<Call>)
    requires calls != []
    requires var init := calls[..|calls| - 1]; Explained(c, head, min, init) && Invariant(c, min, Written(init))
    ensures Explained(Step(c, min, calls[|calls| - 1]), head, min, calls)
  {
    var n := |calls| - 1;
    var init := calls[..n];
    assert calls[..n + 1] == calls;
    StaysFirst(calls, min);
    if FirstStatus(init).None? { NothingYet(init, min); }
    if Neither(init, min) { LastDecides(calls, min); }
    assert !c.decided ==> c.buf == Written(init);
    match calls[n]
    case WriteHeader(_) =>
    case Write(p) => assert Written(calls) == Written(init) + p;
    case Flush =>
  }

  lemma {:induction false} RunExplained(head: Head, min: int, calls: seq<Call>)
    ensures Explained(Run(head, min, calls), head, min, calls)
  {
    if calls != [] {
      var init := calls[..|calls| - 1];
      RunExplained(head, min, init);
      RunKeeps(head, min, init);
      ExplainStep(Run(head, min, init), head, min, calls);
    }
  }

  lemma NotBoth(calls: seq<Call>, min: int)
    ensures !(ReachesFirst(calls, min) && PushesFirst(calls, min))
  {}

  /** A response is compressed exactly when its status lets it have a body, the backend has not encoded
      it, its type is on the list, it declares no length below the threshold, and its body reaches the
      threshold before any flush has bytes to push. */
  lemma CompressesExactly(head: Head, min: int, calls: seq<Call>)
    ensures Closed(head, min, calls).compressing <==>
            && FirstStatus(calls).Some?
            && var status := FirstStatus(calls).value;
            && status >= 200 && status != 204 && status != 304
            && !head.encoded && head.wanted && (head.length.None? || head.length.value >= min)
            && ReachesFirst(calls, min)
  {
    RunExplained(head, min, calls);
    NotBoth(calls, min);
  }

  /** A flush with bytes written leaves none behind, and a compressed stream pushed out. */
  lemma FlushDelivers(head: Head, min: int, calls: seq<Call>)
    requires calls != [] && calls[|calls| - 1].Flush? && Written(calls) != []
    ensures var c := Run(head, min, calls);
            && c.buf == [] && Content(c.out) == Written(calls)
            && (c.compressing ==> c.out != [] && c.out[|c.out| - 1] == Gz(GzFlush))
  {
    var init := calls[..|calls| - 1];
    RunKeeps(head, min, init);
    RunKeeps(head, min, calls);
    assert Written(calls) == Written(init);
  }

  // ----- what the status line says -----

  function Compressed(head: Head): Head {
    head.(encoded := true, length := None, strongTag := false, varies := true)
  }

  /** The response depends on what the client accepts: it has a body, not encoded yet, of a type to
      compress. */
  predicate Varies(status: int, head: Head) { !Bodyless(status) && !head.encoded && head.wanted }

  /** The backend's header, with Vary added exactly when the response varies. */
  function Uncompressed(head: Head, first: Option<int>): Head {
    if first.Some? && Varies(first.value, head) then head.(varies := true) else head
  }

  /** The header map is the backend's own, with Vary added once the type qualifies, and marked as
      compressed exactly when it is. */
  ghost predicate Heading(c: State, head: Head, first: Option<int>) {
    && (c.wroteHeader <==> first.Some?)
    && (c.wroteHeader ==> c.status == first.value)
    && (!c.wroteHeader ==> c.head == head && c.status == 0 && !c.decided && c.buf == [])
    && (c.compressing ==> c.decided && c.head == Compressed(head))
    && (!c.compressing ==> c.head == Uncompressed(head, first))
    && (!c.decided ==> c.out == [] && (c.wroteHeader ==> c.head.varies && c.status != 0))
    && (c.decided ==> c.out != [] && c.out[0] == StatusLine(first.value, c.head, c.compressing))
  }

  lemma HeaderHeading(c: State, head: Head, min: int, status: int, first: Option<int>)
    requires Heading(c, head, first)
    ensures Heading(OnHeader(c, min, status), head, if first.Some? then first else Some(status))
  {}

  lemma StartHeading(c: State, head: Head, compress: bool, first: Option<int>, p: seq<Byte>)
    requires Heading(c, head, first) && c.wroteHeader && !c.decided
    ensures Heading(Pass(Start(c, compress).(buf := []), p), head, first)
  {}

  lemma PassHeading(c: State, head: Head, first: Option<int>, p: seq<Byte>)
    requires Heading(c, head, first) && c.decided
    ensures Heading(Pass(c, p), head, first)
  {}

  lemma WriteHeading(c: State, head: Head, min: int, p: seq<Byte>, first: Option<int>)
    requires Heading(c, head, first)
    ensures Heading(OnWrite(c, min, p), head, if first.Some? then first else Some(200))
  {
    HeaderHeading(c, head, min, 200, first);
    var h := if c.wroteHeader then c else OnHeader(c, min, 200);
    var f := if first.Some? then first else Some(200);
    if h.decided {
      PassHeading(h, head, f, p);
    } else {
      var held := h.(buf := h.buf + p);
      assert Heading(held, head, f);
      StartHeading(held, head, true, f, held.buf);
    }
  }

  lemma FlushHeading(c: State, head: Head, min: int, first: Option<int>)
    requires Heading(c, head, first)
    ensures Heading(OnFlush(c, min), head, first)
  {
    if !c.decided && c.buf != [] { StartHeading(c, head, |c.buf| >= min, first, c.buf); }
  }

  lemma {:induction false} RunHeading(head: Head, min: int, calls: seq<Call>)
    ensures Heading(Run(head, min, calls), head, FirstStatus(calls))
  {
    if calls != [] {
      var init := calls[..|calls| - 1];
      RunHeading(head, min, init);
      var c, first := Run(head, min, init), FirstStatus(init);
      match calls[|calls| - 1]
      case WriteHeader(status) => HeaderHeading(c, head, min, status, first);
      case Write(p) => WriteHeading(c, head, min, p, first);
      case Flush => FlushHeading(c, head, min, first);
    }
  }

  /** The status line carries the first status given, or 200; a compressed response announces its
      coding, drops its length, weakens its tag and varies; any other keeps the backend's header,
      with Vary exactly when the response has a body, not encoded yet, of a type to compress. */
  lemma StatusLineIsRight(head: Head, min: int, calls: seq<Call>)
    ensures var c := Closed(head, min, calls);
            && c.out != [] && c.out[0].StatusLine?
            && c.out[0].status == (if FirstStatus(calls).Some? then FirstStatus(calls).value else 200)
            && (c.compressing ==> c.out[0].head == Compressed(head))
            && (!c.compressing ==> c.out[0].head == Uncompressed(head, FirstStatus(calls)))
  {
    RunHeading(head, min, calls);
  }
}
