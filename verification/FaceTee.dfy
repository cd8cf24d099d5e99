/**
 The client of the faceapp trusted app (FaceTee): the layout of a request and its response in the shared buffer, the
 commands, and the two sessions it opens. The trusted app and the QSEECom library are oracles.
 */
module FaceTee {
  import opened Wrappers
  import opened Decimal
  import opened Nv21
  import opened TeeSessions

  const SHARED_BUFFER_SIZE: nat := 0xc8000
  const REQUEST_HEADER: nat := 48
  const HEADER_SIZE: nat := 64
  const FRAME_SIZE: nat := 640 * 480 * 3 / 2

  const SAVE_FEATURE: nat := 1
  const COMPARE_FEATURE: nat := 2
  const REMOVE_FEATURE: nat := 3
  const SAVE_FRAME: nat := 4
  const REMOVE_FRAME: nat := 6

  /** -1, 0.172, 0.268, 0.342, 0.405, 0.49, 0.55 and 1 as little-endian IEEE 754 single-precision bytes. */
  const THRESHOLDS: seq<Byte> := [
    0x00, 0x00, 0x80, 0xbf, 0xc5, 0x20, 0x30, 0x3e, 0x4c, 0x37, 0x89, 0x3e, 0xa0, 0x1a, 0xaf, 0x3e,
    0x29, 0x5c, 0xcf, 0x3e, 0x48, 0xe1, 0xfa, 0x3e, 0xcd, 0xcc, 0x0c, 0x3f, 0x00, 0x00, 0x80, 0x3f]

  // ----- Layout

  /** The mask clears the low six bits. */
  function RequestSize(payload: nat): nat {
    var end := payload + REQUEST_HEADER + HEADER_SIZE;
    end - end % HEADER_SIZE
  }

  /** The response starts on a 64-byte boundary, strictly after the request, at most one block further than needed. */
  lemma ResponseFollowsRequest(n: nat)
    ensures RequestSize(n) % HEADER_SIZE == 0
    ensures REQUEST_HEADER + n < RequestSize(n) <= REQUEST_HEADER + n + HEADER_SIZE
  {
  }

  /**
   Request and response stay inside the shared buffer exactly up to a payload of 819087 bytes: a larger one would
   also push the eight bytes of the response that the client itself touches past the end. Frames always fit.
   */
  lemma FitsIff(n: nat)
    ensures RequestSize(n) + HEADER_SIZE <= SHARED_BUFFER_SIZE <==> n <= 819087
    ensures RequestSize(n) + 8 <= SHARED_BUFFER_SIZE <==> n <= 819087
    ensures FRAME_SIZE <= 819087
  {
  }

  /** s with `data` written at an offset. */
  function Put(s: seq<Byte>, at: nat, data: seq<Byte>): (r: seq<Byte>)
    requires at + |data| <= |s|
    ensures |r| == |s|
    ensures forall i :: 0 <= i < |s| ==> r[i] == if at <= i < at + |data| then data[i - at] else s[i]
  {
    s[..at] + data + s[at + |data|..]
  }

  /** A 32-bit word in little-endian order. */
  function Word(v: nat): (w: seq<Byte>)
    ensures |w| == 4
  {
    var v1 := v / 0x100;
    var v2 := v1 / 0x100;
    [v % 0x100, v1 % 0x100, v2 % 0x100, v2 / 0x100 % 0x100]
  }

  function WordAt(s: seq<Byte>, at: nat): nat
    requires at + 4 <= |s|
  {
    (s[at] as int) + 0x100 * (s[at + 1] as int) + 0x1_0000 * (s[at + 2] as int) + 0x100_0000 * (s[at + 3] as int)
  }

  lemma WordRoundTrip(s: seq<Byte>, at: nat, v: nat)
    requires at + 4 <= |s| && s[at..at + 4] == Word(v) && v < 0x1_0000_0000
    ensures WordAt(s, at) == v
  {
    var w := s[at..at + 4];
    assert w[0] == s[at] && w[1] == s[at + 1] && w[2] == s[at + 2] && w[3] == s[at + 3];
    var v1 := v / 0x100;
    var v2 := v1 / 0x100;
    assert v == 0x100 * v1 + v % 0x100 && v1 == 0x100 * v2 + v1 % 0x100 && v2 == 0x100 * (v2 / 0x100) + v2 % 0x100;
    assert v2 / 0x100 < 0x100;
  }

  /** How many units in the last place of a single-precision number make up 1. */
  function UnitsInOne(exponent: nat): nat
    decreases 127 - exponent
  {
    if exponent >= 127 then 0x80_0000 else 2 * UnitsInOne(exponent + 1)
  }

  /** An IEEE 754 single-precision word of a size up to 1 is the one nearest to a number of thousandths. */
  predicate Encodes(word: nat, thousandths: int) {
    var exponent, fraction := word / 0x80_0000 % 0x100, word % 0x80_0000;
    var size := if thousandths < 0 then -thousandths else thousandths;
    && exponent <= 127
    && (word >= 0x8000_0000 <==> thousandths < 0)
    && -500 <= 1000 * (0x80_0000 + fraction) - size * UnitsInOne(exponent) <= 500
  }

  lemma WordsEncode()
    ensures Encodes(0xbf80_0000, -1000) && Encodes(0x3e30_20c5, 172)
    ensures Encodes(0x3e89_374c, 268) && Encodes(0x3eaf_1aa0, 342)
    ensures Encodes(0x3ecf_5c29, 405) && Encodes(0x3efa_e148, 490)
    ensures Encodes(0x3f0c_cccd, 550) && Encodes(0x3f80_0000, 1000)
  {
    assert UnitsInOne(127) == 0x80_0000 && UnitsInOne(126) == 0x100_0000;
    assert UnitsInOne(125) == 0x200_0000 && UnitsInOne(124) == 0x400_0000;
  }

  lemma ThresholdWords()
    ensures |THRESHOLDS| == 32
    ensures WordAt(THRESHOLDS, 0) == 0xbf80_0000 && WordAt(THRESHOLDS, 4) == 0x3e30_20c5
    ensures WordAt(THRESHOLDS, 8) == 0x3e89_374c && WordAt(THRESHOLDS, 12) == 0x3eaf_1aa0
    ensures WordAt(THRESHOLDS, 16) == 0x3ecf_5c29 && WordAt(THRESHOLDS, 20) == 0x3efa_e148
    ensures WordAt(THRESHOLDS, 24) == 0x3f0c_cccd && WordAt(THRESHOLDS, 28) == 0x3f80_0000
  {
  }

  /** The eight thresholds: -1, 0.172, 0.268, 0.342, 0.405, 0.49, 0.55 and 1. */
  lemma ThresholdsAre()
    ensures |THRESHOLDS| == 32
    ensures Encodes(WordAt(THRESHOLDS, 0), -1000) && Encodes(WordAt(THRESHOLDS, 4), 172)
    ensures Encodes(WordAt(THRESHOLDS, 8), 268) && Encodes(WordAt(THRESHOLDS, 12), 342)
    ensures Encodes(WordAt(THRESHOLDS, 16), 405) && Encodes(WordAt(THRESHOLDS, 20), 490)
    ensures Encodes(WordAt(THRESHOLDS, 24), 550) && Encodes(WordAt(THRESHOLDS, 28), 1000)
  {
    WordsEncode();
    ThresholdWords();
  }

  datatype Request = Request(cmd: nat, size: nat, index: nat, thresholds: bool, payload: seq<Byte>)

  predicate Fits(q: Request) {
    && q.cmd < 0x1_0000_0000 && q.size < 0x1_0000_0000 && q.index < 0x1_0000_0000
    && RequestSize(|q.payload|) + HEADER_SIZE <= SHARED_BUFFER_SIZE
  }

  function Zeros(n: nat): (z: seq<Byte>)
    ensures |z| == n && forall i :: 0 <= i < n ==> z[i] == 0
  {
    seq(n, i => 0)
  }

  /** The 48 header bytes: cmd, size, index, flags 1 with padding, thresholds. */
  function Header(q: Request): (h: seq<Byte>)
    ensures |h| == REQUEST_HEADER
  {
    Word(q.cmd) + Word(q.size) + Word(q.index) + [1, 0, 0, 0] + if q.thresholds then THRESHOLDS else Zeros(32)
  }

  /** The buffer handed to the app: header, payload, and the response result preset to 9. */
  function Sent(buffer: seq<Byte>, q: Request, requestSize: nat): (r: seq<Byte>)
    requires |buffer| == SHARED_BUFFER_SIZE
    requires REQUEST_HEADER + |q.payload| <= requestSize && requestSize + 8 <= SHARED_BUFFER_SIZE
    ensures |r| == SHARED_BUFFER_SIZE
  {
    Put(Put(Put(buffer, 0, Header(q)), REQUEST_HEADER, q.payload), requestSize + 4, Word(9))
  }

  /** The app finds exactly the request: presetting the result has overwritten none of it. */
  lemma AppSeesRequest(buffer: seq<Byte>, q: Request, requestSize: nat)
    requires |buffer| == SHARED_BUFFER_SIZE && Fits(q)
    requires REQUEST_HEADER + |q.payload| <= requestSize && requestSize + 8 <= SHARED_BUFFER_SIZE
    ensures var s := Sent(buffer, q, requestSize);
            && WordAt(s, 0) == q.cmd && WordAt(s, 4) == q.size && WordAt(s, 8) == q.index && s[12] == 1
            && s[REQUEST_HEADER..REQUEST_HEADER + |q.payload|] == q.payload
            && (q.thresholds ==> s[16..48] == THRESHOLDS)
            && WordAt(s, requestSize + 4) == 9
  {
    var s := Sent(buffer, q, requestSize);
    var h := Header(q);
    assert s[..REQUEST_HEADER] == h;
    assert s[0..4] == h[0..4] == Word(q.cmd);
    assert s[4..8] == h[4..8] == Word(q.size);
    assert s[8..12] == h[8..12] == Word(q.index);
    WordRoundTrip(s, 0, q.cmd);
    WordRoundTrip(s, 4, q.size);
    WordRoundTrip(s, 8, q.index);
    assert s[12] == h[12];
    if q.thresholds { assert s[16..48] == h[16..48] == THRESHOLDS; }
    assert s[requestSize + 4..requestSize + 8] == Word(9);
    WordRoundTrip(s, requestSize + 4, 9);
  }

  // ----- Commands

  /** How the app answers one command: the return value of the call and the bytes of the buffer it writes. */
  datatype Answer = Answer(ret: Int32, writes: map<nat, Byte>)

  function Overlay(s: seq<Byte>, writes: map<nat, Byte>): (r: seq<Byte>)
    ensures |r| == |s|
    ensures forall i :: 0 <= i < |s| ==> r[i] == if i in writes then writes[i] else s[i]
  {
    seq(|s|, i requires 0 <= i < |s| => if i in writes then writes[i] else s[i])
  }

  /** The buffer after a command. */
  function Answered(buffer: seq<Byte>, q: Request, requestSize: nat, a: Answer): (r: seq<Byte>)
    requires |buffer| == SHARED_BUFFER_SIZE
    requires REQUEST_HEADER + |q.payload| <= requestSize && requestSize + 8 <= SHARED_BUFFER_SIZE
    ensures |r| == SHARED_BUFFER_SIZE
  {
    Overlay(Sent(buffer, q, requestSize), a.writes)
  }

  /** What send returns: the call's error converted to 32 unsigned bits, or the result word of the response. */
  function Status(buffer: seq<Byte>, q: Request, requestSize: nat, a: Answer): nat
    requires |buffer| == SHARED_BUFFER_SIZE
    requires REQUEST_HEADER + |q.payload| <= requestSize && requestSize + 8 <= SHARED_BUFFER_SIZE
  {
    if a.ret != 0 then (a.ret as int) % 0x1_0000_0000 else WordAt(Answered(buffer, q, requestSize, a), requestSize + 4)
  }

  /** The call went through and the app overwrote the preset result with 0. */
  ghost predicate Accepted(requestSize: nat, a: Answer) {
    && a.ret == 0
    && requestSize + 4 in a.writes && a.writes[requestSize + 4] == 0
    && (forall i :: requestSize + 4 < i < requestSize + 8 && i in a.writes ==> a.writes[i] == 0)
  }

  /** Success means that the call returned 0 and the app itself overwrote the preset result with 0. */
  lemma SuccessNeedsAnswer(buffer: seq<Byte>, q: Request, requestSize: nat, a: Answer)
    requires |buffer| == SHARED_BUFFER_SIZE && Fits(q)
    requires REQUEST_HEADER + |q.payload| <= requestSize && requestSize + 8 <= SHARED_BUFFER_SIZE
    ensures Status(buffer, q, requestSize, a) == 0 <==> Accepted(requestSize, a)
  {
    var s, r := Sent(buffer, q, requestSize), Answered(buffer, q, requestSize, a);
    var at := requestSize + 4;
    assert s[at] == 9 && s[at + 1] == 0 && s[at + 2] == 0 && s[at + 3] == 0;
    assert WordAt(r, at) == 0 <==> r[at] == 0 && r[at + 1] == 0 && r[at + 2] == 0 && r[at + 3] == 0;
    if a.ret == 0 && WordAt(r, at) == 0 {
      forall i | at < i < at + 4 && i in a.writes
        ensures a.writes[i] == 0
      {
        assert r[i] == a.writes[i];
        assert i == at + 1 || i == at + 2 || i == at + 3;
      }
    }
  }

  /** memcpy and memset into the shared buffer */
  method Write(buffer: array<Byte>, at: nat, data: seq<Byte>)
    requires at + |data| <= buffer.Length
    modifies buffer
    ensures buffer[..] == Put(old(buffer[..]), at, data)
  {
    forall i | 0 <= i < |data| {
      buffer[at + i] := data[i];
    }
  }

  /** The app at work on the buffer. */
  method AppWrites(buffer: array<Byte>, writes: map<nat, Byte>)
    modifies buffer
    ensures buffer[..] == Overlay(old(buffer[..]), writes)
  {
    forall i | 0 <= i < buffer.Length && i in writes {
      buffer[i] := writes[i];
    }
  }

  /** The header as the commands write it: cleared, then field by field. */
  method WriteHeader(buffer: array<Byte>, q: Request)
    requires buffer.Length == SHARED_BUFFER_SIZE
    modifies buffer
    ensures buffer[..] == Put(old(buffer[..]), 0, Header(q))
  {
    ghost var before := buffer[..];
    Write(buffer, 0, Zeros(REQUEST_HEADER));
    Write(buffer, 12, [1]);
    Write(buffer, 0, Word(q.cmd));
    Write(buffer, 4, Word(q.size));
    Write(buffer, 8, Word(q.index));
    if q.thresholds { Write(buffer, 16, THRESHOLDS); }
    HeaderBytes(q);
    assert forall i :: 0 <= i < SHARED_BUFFER_SIZE ==> buffer[i] == Put(before, 0, Header(q))[i];
  }

  lemma HeaderBytes(q: Request)
    ensures forall i :: 0 <= i < REQUEST_HEADER ==>
              Header(q)[i] == if i < 4 then Word(q.cmd)[i]
                              else if i < 8 then Word(q.size)[i - 4]
                              else if i < 12 then Word(q.index)[i - 8]
                              else if i == 12 then 1
                              else if i < 16 || !q.thresholds then 0
                              else THRESHOLDS[i - 16]
  {
  }

  /** One command: write the request, preset the result, let the app answer, and read the status (send). */
  method Transact(buffer: array<Byte>, q: Request, requestSize: nat, a: Answer) returns (status: nat)
    requires buffer.Length == SHARED_BUFFER_SIZE && Fits(q)
    requires REQUEST_HEADER + |q.payload| <= requestSize && requestSize + 8 <= SHARED_BUFFER_SIZE
    modifies buffer
    ensures buffer[..] == Answered(old(buffer[..]), q, requestSize, a)
    ensures status == Status(old(buffer[..]), q, requestSize, a)
  {
    WriteHeader(buffer, q);
    Write(buffer, REQUEST_HEADER, q.payload);
    Write(buffer, requestSize + 4, Word(9));
    AppWrites(buffer, a.writes);
    if a.ret != 0 { return (a.ret as int) % 0x1_0000_0000; }
    status := WordAt(buffer[..], requestSize + 4);
  }

  // ----- The client object

  /** The buffer holds the app's answer to this request, as it was sent from some earlier contents. */
  ghost predicate Served(after: seq<Byte>, q: Request, requestSize: nat, a: Answer)
    requires REQUEST_HEADER + |q.payload| <= requestSize && requestSize + 8 <= SHARED_BUFFER_SIZE
  {
    exists before: seq<Byte> :: |before| == SHARED_BUFFER_SIZE && after == Answered(before, q, requestSize, a)
  }

  /** The answers a command may get: to opening the sessions, and to the command itself. */
  datatype Answers = Answers(open: OpenAnswers, command: Answer)

  class FaceTee {
    var mLoaded: bool
    var mFeature: array?<Byte>   // shared buffer of the feature session's handle, null without one
    var mFrame: array?<Byte>     // shared buffer of the frame session's handle, null without one
    ghost var started: nat
    ghost var stopped: nat

    ghost function State(): Sessions
      reads this
    {
      Sessions(mLoaded, mFeature != null, mFrame != null, started, stopped)
    }

    ghost predicate Valid()
      reads this
    {
      && Conserved(State())
      && (mFeature != null ==> mFeature.Length == SHARED_BUFFER_SIZE)
      && (mFrame != null ==> mFrame.Length == SHARED_BUFFER_SIZE)
      && (mFeature != null && mFrame != null ==> mFeature != mFrame)
    }

    constructor ()
      ensures Valid() && State() == NO_SESSIONS
    {
      mLoaded, mFeature, mFrame, started, stopped := false, null, null, 0, 0;
    }

    /** start: retries over both paths, shutting down every handle it cannot use. */
    method Start(held: array?<Byte>, answers: seq<StartAnswer>) returns (ok: bool, handle: array?<Byte>)
      requires |answers| == ATTEMPTS
      modifies this`started, this`stopped
      ensures ok <==> handle != null
      ensures ok <==> held != null || FirstUsable(answers, 0).Some?
      ensures held != null ==> handle == held && started == old(started) && stopped == old(stopped)
      ensures held == null ==>
                && (handle != null ==> fresh(handle) && handle.Length == SHARED_BUFFER_SIZE)
                && started == old(started) + HandlesIn(answers, Tried(answers))
                && stopped == old(stopped) + HandlesIn(answers, Tried(answers)) - if ok then 1 else 0
    {
      if held != null { return true, held; }
      handle := null;
      var attempt, tried := 1, 0;
      while attempt <= 5
        invariant 1 <= attempt <= 6 && tried == 2 * (attempt - 1)
        invariant handle == null
        invariant FirstUsable(answers, 0) == FirstUsable(answers, tried)
        invariant started == old(started) + HandlesIn(answers, tried)
        invariant stopped == old(stopped) + HandlesIn(answers, tried)
      {
        var path := 0;
        while path < 2
          invariant 0 <= path <= 2 && tried == 2 * (attempt - 1) + path
          invariant handle == null
          invariant FirstUsable(answers, 0) == FirstUsable(answers, tried)
          invariant started == old(started) + HandlesIn(answers, tried)
          invariant stopped == old(stopped) + HandlesIn(answers, tried)
        {
          var a := answers[tried];
          tried := tried + 1;
          if a.handle { started := started + 1; }
          if a.ret == 0 && a.handle && a.buffer {
            handle := new Byte[SHARED_BUFFER_SIZE];
            return true, handle;
          }
          if a.handle { stopped := stopped + 1; }
          path := path + 1;
        }
        attempt := attempt + 1;
      }
      ok := false;
    }

    method Open(o: OpenAnswers) returns (ok: bool)
      requires Valid() && ValidAnswers(o)
      modifies this
      ensures Valid() && State() == Opened(old(State()), o)
      ensures ok <==> mLoaded && mFeature != null && mFrame != null
      ensures old(mFeature) != null ==> mFeature == old(mFeature)
      ensures old(mFrame) != null ==> mFrame == old(mFrame)
      ensures old(mFeature) == null && mFeature != null ==> fresh(mFeature)
      ensures old(mFrame) == null && mFrame != null ==> fresh(mFrame)
    {
      if !mLoaded && !o.loads { return false; }
      mLoaded := true;
      ok, mFeature := Start(mFeature, o.feature);
      if !ok { return; }
      ok, mFrame := Start(mFrame, o.frame);
    }

    /** ~FaceTee */
    method Close()
      requires Valid()
      modifies this
      ensures Valid() && State() == Closed(old(State())) && started == stopped
    {
      if mFeature != null { mFeature, stopped := null, stopped + 1; }
      if mFrame != null { mFrame, stopped := null, stopped + 1; }
    }

    method SaveFeature(feature: seq<Byte>, a: Answers) returns (ok: bool)
      requires Valid() && ValidAnswers(a.open) && |feature| <= 819087
      modifies this, mFeature
      ensures Valid() && State() == Opened(old(State()), a.open)
      ensures ok <==> CanUse(State()) && Accepted(RequestSize(|feature|), a.command)
      ensures CanUse(State()) ==> mFeature != null &&
                                  Served(mFeature[..], Request(1, |feature|, 0, false, feature),
                                         RequestSize(|feature|), a.command)
    {
      ok := Open(a.open);
      if !ok { return; }
      var q := Request(SAVE_FEATURE, |feature|, 0, false, feature);
      ghost var before := mFeature[..];
      var status := Transact(mFeature, q, RequestSize(|feature|), a.command);
      SuccessNeedsAnswer(before, q, RequestSize(|feature|), a.command);
      ok := status == 0;
    }

    method RemoveFeature(a: Answers) returns (ok: bool)
      requires Valid() && ValidAnswers(a.open)
      modifies this, mFeature
      ensures Valid() && State() == Opened(old(State()), a.open)
      ensures ok <==> CanUse(State()) && Accepted(HEADER_SIZE, a.command)
      ensures CanUse(State()) ==> mFeature != null &&
                                  Served(mFeature[..], Request(3, 0, 0, false, []),
                                         HEADER_SIZE, a.command)
    {
      ok := Open(a.open);
      if !ok { return; }
      var q := Request(REMOVE_FEATURE, 0, 0, false, []);
      ghost var before := mFeature[..];
      var status := Transact(mFeature, q, HEADER_SIZE, a.command);
      SuccessNeedsAnswer(before, q, HEADER_SIZE, a.command);
      ok := status == 0;
    }

    /** The bits of the response's score, if the app accepted the comparison. */
    method Compare(feature: seq<Byte>, a: Answers) returns (score: Option<seq<Byte>>)
      requires Valid() && ValidAnswers(a.open) && |feature| <= 819087
      modifies this, mFeature
      ensures Valid() && State() == Opened(old(State()), a.open)
      ensures score.Some? <==> CanUse(State()) && Accepted(RequestSize(|feature|), a.command)
      ensures CanUse(State()) ==> mFeature != null &&
                                  Served(mFeature[..], Request(2, |feature|, 0, true, feature),
                                         RequestSize(|feature|), a.command)
      ensures score.Some? ==> mFeature != null &&
                              score.value == mFeature[RequestSize(|feature|)..RequestSize(|feature|) + 4]
    {
      var ok := Open(a.open);
      if !ok { return None; }
      var requestSize := RequestSize(|feature|);
      var q := Request(COMPARE_FEATURE, |feature|, 0, true, feature);
      ghost var before := mFeature[..];
      var status := Transact(mFeature, q, requestSize, a.command);
      SuccessNeedsAnswer(before, q, requestSize, a.command);
      if status != 0 { return None; }
      score := Some(mFeature[requestSize..requestSize + 4]);
    }

    method SaveFrame(index: nat, nv21: seq<Byte>, a: Answers) returns (ok: bool)
      requires Valid() && ValidAnswers(a.open) && |nv21| == FRAME_SIZE && index < 0x1_0000_0000
      modifies this, mFrame
      ensures Valid() && State() == Opened(old(State()), a.open)
      ensures ok <==> CanUse(State()) && Accepted(RequestSize(FRAME_SIZE), a.command)
      ensures CanUse(State()) ==> mFrame != null &&
                                  Served(mFrame[..], Request(4, FRAME_SIZE, index, false, nv21),
                                         RequestSize(FRAME_SIZE), a.command)
    {
      ok := Open(a.open);
      if !ok { return; }
      var q := Request(SAVE_FRAME, FRAME_SIZE, index, false, nv21);
      ghost var before := mFrame[..];
      var status := Transact(mFrame, q, RequestSize(FRAME_SIZE), a.command);
      SuccessNeedsAnswer(before, q, RequestSize(FRAME_SIZE), a.command);
      ok := status == 0;
    }

    method RemoveFrame(index: nat, a: Answers) returns (ok: bool)
      requires Valid() && ValidAnswers(a.open) && index < 0x1_0000_0000
      modifies this, mFrame
      ensures Valid() && State() == Opened(old(State()), a.open)
      ensures ok <==> CanUse(State()) && Accepted(HEADER_SIZE, a.command)
      ensures CanUse(State()) ==> mFrame != null &&
                                  Served(mFrame[..], Request(6, 0, index, false, []),
                                         HEADER_SIZE, a.command)
    {
      ok := Open(a.open);
      if !ok { return; }
      var q := Request(REMOVE_FRAME, 0, index, false, []);
      ghost var before := mFrame[..];
      var status := Transact(mFrame, q, HEADER_SIZE, a.command);
      SuccessNeedsAnswer(before, q, HEADER_SIZE, a.command);
      ok := status == 0;
    }
  }
}
