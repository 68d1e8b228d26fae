/**
 Writers sharing one FIFO. Each cuts its file into messages of m = PIPE_BUF - 4 bytes, puts its pid in front of each,
 fills the last one up with zeros, and writes every frame with one write(). A write of at most PIPE_BUF bytes is atomic
 (write() in POSIX.1-2017), so writers interleave frame by frame. Files are regular files: a read is short only at the
 end.
 */
module FifoFrames {
  import opened Sequences

  const PID_SIZE := 4

  type byte = x: int | 0 <= x < 256
  type Pid = p: int | 0 < p < 0x8000_0000 witness 1

  /** A pid in memory, lowest byte first. */
  function Header(pid: Pid): (h: seq<byte>)
    ensures |h| == PID_SIZE
  {
    [pid % 256, pid / 256 % 256, pid / 65536 % 256, pid / 16777216]
  }

  function Owner(frame: seq<byte>): int
    requires |frame| >= PID_SIZE
  {
    var h: seq<int> := frame;
    h[0] + 256 * h[1] + 65536 * h[2] + 16777216 * h[3]
  }

  lemma {:induction false} OwnerOfHeader(pid: Pid, rest: seq<byte>)
    ensures Owner(Header(pid) + rest) == pid
  {
    assert pid / 65536 == pid / 256 / 256 && pid / 16777216 == pid / 65536 / 256;
  }

  lemma {:induction false} FramesOfOneOwner(frame: seq<byte>, pid: Pid)
    requires |frame| >= PID_SIZE && frame[..PID_SIZE] == Header(pid)
    ensures Owner(frame) == pid
  {
    assert frame == Header(pid) + frame[PID_SIZE..];
    OwnerOfHeader(pid, frame[PID_SIZE..]);
  }

  function Zeros(k: nat): (z: seq<byte>)
    ensures |z| == k && forall i :: 0 <= i < k ==> z[i] == 0
  {
    seq(k, _ => 0)
  }

  /** n is a whole number of times f. */
  predicate Whole(n: nat, f: nat)
    requires f > 0
  {
    n == 0 || (n >= f && Whole(n - f, f))
  }

  /** Messages of m bytes that n bytes take. */
  function Messages(n: nat, m: nat): nat
    requires m > 0
  {
    if n == 0 then 0 else if n <= m then 1 else 1 + Messages(n - m, m)
  }

  /** Zeros that fill up the last of them. */
  function Padding(n: nat, m: nat): nat
    requires m > 0
  {
    if n == 0 then 0 else if n <= m then m - n else Padding(n - m, m)
  }

  lemma {:induction false} Distribute(k: int, m: int)
    ensures (k + 1) * m == k * m + m
  {}

  /** The number of messages is the quotient rounded up, and the padding makes up the difference. */
  lemma {:induction false} MessagesRoundUp(n: nat, m: nat)
    requires m > 0
    ensures n + Padding(n, m) == Messages(n, m) * m && Padding(n, m) < m
    decreases n
  {
    if n > m {
      MessagesRoundUp(n - m, m);
      Distribute(Messages(n - m, m), m);
    }
  }

  /** A file filled up with zeros to whole messages. */
  function Padded(file: seq<byte>, m: nat): seq<byte>
    requires m > 0
  {
    file + Zeros(Padding(|file|, m))
  }

  /** A stream cut into frames of f bytes; an unfinished last frame is not there yet. */
  function Cut(stream: seq<byte>, f: nat): (frames: seq<seq<byte>>)
    requires f > 0
    ensures forall k :: 0 <= k < |frames| ==> |frames[k]| == f
  {
    if |stream| < f then [] else [stream[..f]] + Cut(stream[f..], f)
  }

  /** The messages in the frames of one writer, in order. */
  function Heard(frames: seq<seq<byte>>, pid: Pid): seq<byte>
    requires forall k :: 0 <= k < |frames| ==> |frames[k]| >= PID_SIZE
  {
    if frames == [] then []
    else (if Owner(frames[0]) == pid then frames[0][PID_SIZE..] else []) + Heard(frames[1..], pid)
  }

  /** How many frames a writer has in the stream. */
  function Share(frames: seq<seq<byte>>, pid: Pid): nat
    requires forall k :: 0 <= k < |frames| ==> |frames[k]| >= PID_SIZE
  {
    if frames == [] then 0 else (if Owner(frames[0]) == pid then 1 else 0) + Share(frames[1..], pid)
  }

  lemma {:induction false} CutOfMore(stream: seq<byte>, frame: seq<byte>)
    requires |frame| > 0 && Whole(|stream|, |frame|)
    ensures Cut(stream + frame, |frame|) == Cut(stream, |frame|) + [frame]
    decreases |stream|
  {
    var f := |frame|;
    if stream == [] {
      assert stream + frame == frame && frame[..f] == frame && frame[f..] == [];
    } else {
      assert (stream + frame)[..f] == stream[..f] && (stream + frame)[f..] == stream[f..] + frame;
      CutOfMore(stream[f..], frame);
    }
  }

  /** A frame appended to the stream is heard by its owner's listener and by nobody else. */
  lemma {:induction false} HeardOfMore(frames: seq<seq<byte>>, frame: seq<byte>, pid: Pid)
    requires |frame| >= PID_SIZE && forall k :: 0 <= k < |frames| ==> |frames[k]| >= PID_SIZE
    ensures Heard(frames + [frame], pid) == Heard(frames, pid) + if Owner(frame) == pid then frame[PID_SIZE..] else []
    ensures Share(frames + [frame], pid) == Share(frames, pid) + if Owner(frame) == pid then 1 else 0
  {
    if frames == [] {
      assert frames + [frame] == [frame] && [frame][1..] == [];
    } else {
      assert (frames + [frame])[1..] == frames[1..] + [frame];
      HeardOfMore(frames[1..], frame, pid);
    }
  }

  /** A writer is about to read, about to write what a read returned, or has left the loop. */
  datatype Phase = Reading | Writing(ret: nat) | Done

  datatype Writer = Writer(pid: Pid, file: seq<byte>, offset: nat, buffer: seq<byte>, phase: Phase)

  datatype System = System(m: nat, fifo: seq<byte>, writers: seq<Writer>)

  datatype Action = Read(i: nat) | Write(i: nat)

  /** What read() returns: a whole message while there is one, then what is left. */
  function Available(file: seq<byte>, offset: nat, m: nat): nat
    requires offset <= |file|
  {
    if m <= |file| - offset then m else |file| - offset
  }

  ghost predicate Shaped(s: System) {
    && s.m > 0
    && (forall i :: 0 <= i < |s.writers| ==> s.writers[i].offset <= |s.writers[i].file|)
    && (forall i :: 0 <= i < |s.writers| ==> |s.writers[i].buffer| == PID_SIZE + s.m)
    && (forall i, j :: 0 <= i < j < |s.writers| ==> s.writers[i].pid != s.writers[j].pid)
  }

  ghost predicate Enabled(s: System, a: Action) {
    && a.i < |s.writers|
    && match a
       case Read(i) => s.writers[i].phase.Reading?
       case Write(i) => s.writers[i].phase.Writing?
  }

  /** The buffer is reused: the read overwrites its head, and the rest is zeroed when the read is short. */
  function Refilled(w: Writer, m: nat): (v: Writer)
    requires w.offset <= |w.file| && |w.buffer| == PID_SIZE + m
    ensures |v.buffer| == |w.buffer| && v.offset <= |v.file| && v.pid == w.pid && v.file == w.file
  {
    var ret := Available(w.file, w.offset, m);
    var body := w.file[w.offset..w.offset + ret] + if ret < m then Zeros(m - ret) else w.buffer[PID_SIZE + ret..];
    w.(buffer := w.buffer[..PID_SIZE] + body, offset := w.offset + ret, phase := Writing(ret))
  }

  ghost function Apply(s: System, a: Action): (t: System)
    requires Shaped(s) && Enabled(s, a)
    ensures Shaped(t) && t.m == s.m && |t.writers| == |s.writers|
    ensures forall k :: 0 <= k < |s.writers| ==>
      t.writers[k].pid == s.writers[k].pid && t.writers[k].file == s.writers[k].file
  {
    var w := s.writers[a.i];
    match a
    case Read(i) => s.(writers := s.writers[i := Refilled(w, s.m)])
    case Write(i) =>
      s.(fifo := if w.phase.ret > 0 then s.fifo + w.buffer else s.fifo,
         writers := s.writers[i := w.(phase := if w.phase.ret == s.m then Reading else Done)])
  }

  ghost predicate Legal(s: System, run: seq<Action>)
    requires Shaped(s)
    decreases |run|
  {
    run == [] || (Enabled(s, run[0]) && Legal(Apply(s, run[0]), run[1..]))
  }

  ghost function After(s: System, run: seq<Action>): (t: System)
    requires Shaped(s) && Legal(s, run)
    ensures Shaped(t) && t.m == s.m && |t.writers| == |s.writers|
    ensures forall k :: 0 <= k < |s.writers| ==>
      t.writers[k].pid == s.writers[k].pid && t.writers[k].file == s.writers[k].file
    decreases |run|
  {
    if run == [] then s else After(Apply(s, run[0]), run[1..])
  }

  /** Every writer has put its pid in its buffer; nothing has been written. */
  ghost predicate Initial(s: System) {
    && Shaped(s) && s.fifo == []
    && forall i :: 0 <= i < |s.writers| ==>
         && s.writers[i].offset == 0 && s.writers[i].phase == Reading
         && s.writers[i].buffer[..PID_SIZE] == Header(s.writers[i].pid)
  }

  /** What the stream holds for a writer, and how many frames of it. */
  ghost predicate Holds(fifo: seq<byte>, m: nat, pid: Pid, text: seq<byte>, count: nat) {
    Heard(Cut(fifo, PID_SIZE + m), pid) == text && Share(Cut(fifo, PID_SIZE + m), pid) == count
  }

  /** What has been written is the file up to the last message, padded when the writer is done. */
  ghost predicate WriterInv(w: Writer, fifo: seq<byte>, m: nat)
    requires m > 0
  {
    && w.offset <= |w.file| && |w.buffer| == PID_SIZE + m && w.buffer[..PID_SIZE] == Header(w.pid)
    && match w.phase
       case Reading => Whole(w.offset, m) && Holds(fifo, m, w.pid, w.file[..w.offset], Messages(w.offset, m))
       case Writing(ret) =>
         ret <= m && ret <= w.offset && Whole(w.offset - ret, m)
         && (ret < m ==> w.offset == |w.file|)
         && w.buffer[PID_SIZE..] == w.file[w.offset - ret..w.offset] + Zeros(m - ret)
         && Holds(fifo, m, w.pid, w.file[..w.offset - ret], Messages(w.offset - ret, m))
       case Done => Holds(fifo, m, w.pid, Padded(w.file, m), Messages(|w.file|, m))
  }

  ghost predicate Inv(s: System) {
    && Shaped(s) && Whole(|s.fifo|, PID_SIZE + s.m)
    && forall i :: 0 <= i < |s.writers| ==> WriterInv(s.writers[i], s.fifo, s.m)
  }

  lemma {:induction false} InitialInv(s: System)
    requires Initial(s)
    ensures Inv(s)
  {}

  lemma {:induction false} ReadKeepsWriter(w: Writer, fifo: seq<byte>, m: nat)
    requires m > 0 && WriterInv(w, fifo, m) && w.phase == Reading
    ensures WriterInv(Refilled(w, m), fifo, m)
  {
    var v := Refilled(w, m);
    assert v.buffer[..PID_SIZE] == w.buffer[..PID_SIZE];
    assert v.offset - v.phase.ret == w.offset;
    assert v.buffer[PID_SIZE..] == w.file[w.offset..v.offset] + Zeros(m - v.phase.ret);
  }

  /** What is left over whole messages makes one message more, padded, unless it is nothing. */
  lemma {:induction false} LastMessage(n: nat, ret: nat, m: nat)
    requires ret < m && ret <= n && Whole(n - ret, m)
    ensures Padding(n, m) == if ret == 0 then 0 else m - ret
    ensures Messages(n, m) == Messages(n - ret, m) + if ret == 0 then 0 else 1
    decreases n
  {
    if n > ret && n > m {
      LastMessage(n - m, ret, m);
    }
  }

  /** One more frame in the stream, as the listener to one pid hears it. */
  lemma {:induction false} HoldsMore(fifo: seq<byte>, m: nat, frame: seq<byte>, author: Pid, pid: Pid,
                                     text: seq<byte>, count: nat)
    requires m > 0 && |frame| == PID_SIZE + m && Whole(|fifo|, |frame|) && frame[..PID_SIZE] == Header(author)
    requires Holds(fifo, m, pid, text, count)
    ensures pid == author ==> Holds(fifo + frame, m, pid, text + frame[PID_SIZE..], count + 1)
    ensures pid != author ==> Holds(fifo + frame, m, pid, text, count)
    ensures Whole(|fifo + frame|, |frame|)
  {
    CutOfMore(fifo, frame);
    FramesOfOneOwner(frame, author);
    HeardOfMore(Cut(fifo, |frame|), frame, pid);
    assert text + [] == text;
  }

  lemma {:induction false} FullWriteKeepsAuthor(w: Writer, fifo: seq<byte>, m: nat)
    requires m > 0 && WriterInv(w, fifo, m) && w.phase == Writing(m) && Whole(|fifo|, PID_SIZE + m)
    ensures WriterInv(w.(phase := Reading), fifo + w.buffer, m)
  {
    var text := w.file[..w.offset - m];
    HoldsMore(fifo, m, w.buffer, w.pid, w.pid, text, Messages(w.offset - m, m));
    assert w.buffer[PID_SIZE..] == w.file[w.offset - m..w.offset];
    assert text + w.file[w.offset - m..w.offset] == w.file[..w.offset];
  }

  lemma {:induction false} LastWriteKeepsAuthor(w: Writer, fifo: seq<byte>, m: nat)
    requires m > 0 && WriterInv(w, fifo, m) && w.phase.Writing? && w.phase.ret < m && Whole(|fifo|, PID_SIZE + m)
    ensures WriterInv(w.(phase := Done), if w.phase.ret > 0 then fifo + w.buffer else fifo, m)
  {
    var ret := w.phase.ret;
    var text := w.file[..w.offset - ret];
    LastMessage(|w.file|, ret, m);
    if ret == 0 {
      assert text == w.file && w.file + Zeros(0) == w.file;
    } else {
      HoldsMore(fifo, m, w.buffer, w.pid, w.pid, text, Messages(w.offset - ret, m));
      assert text + w.buffer[PID_SIZE..] == Padded(w.file, m);
    }
  }

  lemma {:induction false} WriteKeepsOthers(v: Writer, w: Writer, fifo: seq<byte>, m: nat)
    requires m > 0 && WriterInv(v, fifo, m) && WriterInv(w, fifo, m) && Whole(|fifo|, PID_SIZE + m)
    requires v.pid != w.pid
    ensures WriterInv(v, fifo + w.buffer, m)
  {
    match v.phase
    case Reading => HoldsMore(fifo, m, w.buffer, w.pid, v.pid, v.file[..v.offset], Messages(v.offset, m));
    case Writing(ret) =>
      HoldsMore(fifo, m, w.buffer, w.pid, v.pid, v.file[..v.offset - ret], Messages(v.offset - ret, m));
    case Done =>
      HoldsMore(fifo, m, w.buffer, w.pid, v.pid, Padded(v.file, m), Messages(|v.file|, m));
  }

  lemma {:induction false} WriteKeepsWriter(s: System, i: nat, k: nat)
    requires Inv(s) && Enabled(s, Write(i)) && k < |s.writers|
    ensures WriterInv(Apply(s, Write(i)).writers[k], Apply(s, Write(i)).fifo, s.m)
  {
    var w := s.writers[i];
    assert WriterInv(w, s.fifo, s.m) && WriterInv(s.writers[k], s.fifo, s.m);
    if k != i {
      WriteKeepsOthers(s.writers[k], w, s.fifo, s.m);
    } else if w.phase.ret == s.m {
      FullWriteKeepsAuthor(w, s.fifo, s.m);
    } else {
      LastWriteKeepsAuthor(w, s.fifo, s.m);
    }
  }

  lemma {:induction false} StepKeepsInv(s: System, a: Action)
    requires Inv(s) && Enabled(s, a)
    ensures Inv(Apply(s, a))
  {
    var t := Apply(s, a);
    assert WriterInv(s.writers[a.i], s.fifo, s.m);
    forall k | 0 <= k < |s.writers|
      ensures WriterInv(t.writers[k], t.fifo, t.m)
    {
      if a.Write? {
        WriteKeepsWriter(s, a.i, k);
      } else {
        assert WriterInv(s.writers[k], s.fifo, s.m);
        ReadKeepsWriter(s.writers[a.i], s.fifo, s.m);
      }
    }
  }

  lemma {:induction false} RunKeepsInv(s: System, run: seq<Action>)
    requires Inv(s) && Legal(s, run)
    ensures Inv(After(s, run))
    decreases |run|
  {
    if run != [] {
      StepKeepsInv(s, run[0]);
      RunKeepsInv(Apply(s, run[0]), run[1..]);
    }
  }

  /**
   Demultiplexing: however the writers interleave, when writer i is done the frames that carry its pid, put together,
   are its file followed by zeros, and there are exactly as many as messages: none for an empty file, and no
   extra one when the length is a multiple of m.
   */
  lemma {:induction false} FramesCanBeToldApart(s: System, run: seq<Action>, i: nat)
    requires Initial(s) && Legal(s, run) && i < |s.writers| && After(s, run).writers[i].phase == Done
    ensures Heard(Cut(After(s, run).fifo, PID_SIZE + s.m), s.writers[i].pid) == Padded(s.writers[i].file, s.m)
    ensures Share(Cut(After(s, run).fifo, PID_SIZE + s.m), s.writers[i].pid) == Messages(|s.writers[i].file|, s.m)
  {
    InitialInv(s);
    RunKeepsInv(s, run);
    assert WriterInv(After(s, run).writers[i], After(s, run).fifo, s.m);
  }

  /** A reader in the middle of any run has seen, of every writer, a prefix of its padded file. */
  lemma {:induction false} NothingOutOfOrder(s: System, run: seq<Action>, i: nat)
    requires Initial(s) && Legal(s, run) && i < |s.writers|
    ensures Heard(Cut(After(s, run).fifo, PID_SIZE + s.m), s.writers[i].pid) <= Padded(s.writers[i].file, s.m)
  {
    InitialInv(s);
    RunKeepsInv(s, run);
    assert WriterInv(After(s, run).writers[i], After(s, run).fifo, s.m);
  }

  ghost predicate Stranger(s: System, pid: Pid) {
    forall i :: 0 <= i < |s.writers| ==> s.writers[i].pid != pid
  }

  lemma {:induction false} StepAddsNoStranger(s: System, a: Action, pid: Pid)
    requires Inv(s) && Enabled(s, a) && Stranger(s, pid)
    ensures Stranger(Apply(s, a), pid)
    ensures Share(Cut(Apply(s, a).fifo, PID_SIZE + s.m), pid) == Share(Cut(s.fifo, PID_SIZE + s.m), pid)
  {
    if a.Write? {
      var w := s.writers[a.i];
      assert WriterInv(w, s.fifo, s.m) && w.pid != pid;
      var frames := Cut(s.fifo, PID_SIZE + s.m);
      HoldsMore(s.fifo, s.m, w.buffer, w.pid, pid, Heard(frames, pid), Share(frames, pid));
    }
  }

  /** Nobody else's frames are in the stream. */
  lemma {:induction false} NoStrangers(s: System, run: seq<Action>, pid: Pid)
    requires Inv(s) && Legal(s, run) && Stranger(s, pid)
    ensures Share(Cut(After(s, run).fifo, PID_SIZE + s.m), pid) == Share(Cut(s.fifo, PID_SIZE + s.m), pid)
    decreases |run|
  {
    if run != [] {
      StepKeepsInv(s, run[0]);
      StepAddsNoStranger(s, run[0], pid);
      NoStrangers(Apply(s, run[0]), run[1..], pid);
    }
  }

  /** The text without its trailing zeros. */
  function Stripped(text: seq<byte>): (t: seq<byte>)
    ensures t <= text
  {
    if text == [] || text[|text| - 1] != 0 then text else Stripped(text[..|text| - 1])
  }

  lemma {:induction false} PaddingStripsOff(file: seq<byte>, k: nat)
    ensures Stripped(file + Zeros(k)) == Stripped(file)
  {
    if k == 0 {
      assert file + Zeros(0) == file;
    } else {
      var text := file + Zeros(k);
      assert text[..|text| - 1] == file + Zeros(k - 1);
      PaddingStripsOff(file, k - 1);
    }
  }

  /**
   What a reader can recover by dropping the padding is the file itself exactly when it does not end in a zero byte.
   */
  lemma {:induction false} FileIsRecoveredIff(file: seq<byte>, m: nat)
    requires m > 0
    ensures Stripped(Padded(file, m)) == file <==> file == [] || file[|file| - 1] != 0
  {
    PaddingStripsOff(file, Padding(|file|, m));
    if file != [] && file[|file| - 1] == 0 {
      assert |Stripped(file)| <= |file| - 1;
    }
  }

  /** Reads that will fill a whole message. */
  function FullReads(n: nat, m: nat): nat
    requires m > 0
  {
    if n < m then 0 else 1 + FullReads(n - m, m)
  }

  /** Steps a writer still has to make: a read and a write for every whole message, and once more. */
  ghost function StepsLeft(w: Writer, m: nat): int
    requires m > 0 && w.offset <= |w.file|
  {
    match w.phase
    case Reading => 2 * FullReads(|w.file| - w.offset, m) + 2
    case Writing(ret) => if ret == m then 2 * FullReads(|w.file| - w.offset, m) + 3 else 1
    case Done => 0
  }

  ghost function AllStepsLeft(s: System): (b: seq<int>)
    requires Shaped(s)
    ensures |b| == |s.writers| && forall i :: 0 <= i < |b| ==> b[i] == StepsLeft(s.writers[i], s.m)
  {
    seq(|s.writers|, i requires 0 <= i < |s.writers| => StepsLeft(s.writers[i], s.m))
  }

  lemma {:induction false} StepIsCounted(s: System, a: Action)
    requires Shaped(s) && Enabled(s, a)
    ensures Sum(AllStepsLeft(Apply(s, a))) == Sum(AllStepsLeft(s)) - 1
  {
    var w, v := s.writers[a.i], Apply(s, a).writers[a.i];
    assert StepsLeft(v, s.m) == StepsLeft(w, s.m) - 1;
    SumOfUpdate(AllStepsLeft(s), a.i, StepsLeft(v, s.m));
    assert AllStepsLeft(Apply(s, a)) == AllStepsLeft(s)[a.i := StepsLeft(v, s.m)];
  }

  /** Every step is progress: a run that leaves no writer unfinished has exactly as many steps as were due. */
  lemma {:induction false} RunsAreCounted(s: System, run: seq<Action>)
    requires Shaped(s) && Legal(s, run)
    ensures |run| == Sum(AllStepsLeft(s)) - Sum(AllStepsLeft(After(s, run)))
    decreases |run|
  {
    if run != [] {
      StepIsCounted(s, run[0]);
      RunsAreCounted(Apply(s, run[0]), run[1..]);
    }
  }

  /** The bytes one writer alone puts into the stream. */
  function Framed(pid: Pid, file: seq<byte>, m: nat): seq<byte>
    requires m > 0
    decreases |file|
  {
    if file == [] then []
    else if |file| < m then Header(pid) + file + Zeros(m - |file|)
    else Header(pid) + file[..m] + Framed(pid, file[m..], m)
  }

  lemma {:induction false} PaddedInParts(text: seq<byte>, head: seq<byte>, rest: seq<byte>)
    requires |head| > 0
    ensures text + head + Padded(rest, |head|) == text + Padded(head + rest, |head|)
    ensures Messages(|head + rest|, |head|) == Messages(|rest|, |head|) + 1
  {
    assert rest == [] ==> Padding(|head|, |head|) == 0;
  }

  lemma {:induction false} LastFrameIsHeard(pid: Pid, file: seq<byte>, m: nat, fifo: seq<byte>,
                                            text: seq<byte>, count: nat)
    requires |file| < m && Whole(|fifo|, PID_SIZE + m) && Holds(fifo, m, pid, text, count)
    ensures Holds(fifo + Framed(pid, file, m), m, pid, text + Padded(file, m), count + Messages(|file|, m))
  {
    LastMessage(|file|, |file|, m);
    if file == [] {
      assert fifo + [] == fifo && text + ([] + Zeros(0)) == text;
    } else {
      var frame := Header(pid) + (file + Zeros(m - |file|));
      assert Framed(pid, file, m) == frame && frame[..PID_SIZE] == Header(pid);
      HoldsMore(fifo, m, frame, pid, pid, text, count);
      assert frame[PID_SIZE..] == Padded(file, m);
    }
  }

  /** Written alone behind whole frames, a file adds exactly its padded text to what is heard of its writer. */
  lemma {:induction false} FramedIsHeard(pid: Pid, file: seq<byte>, m: nat, fifo: seq<byte>,
                                         text: seq<byte>, count: nat)
    requires m > 0 && Whole(|fifo|, PID_SIZE + m) && Holds(fifo, m, pid, text, count)
    ensures Holds(fifo + Framed(pid, file, m), m, pid, text + Padded(file, m), count + Messages(|file|, m))
    decreases |file|
  {
    if |file| < m {
      LastFrameIsHeard(pid, file, m, fifo, text, count);
    } else {
      var frame, rest := Header(pid) + file[..m], file[m..];
      assert frame[..PID_SIZE] == Header(pid) && frame[PID_SIZE..] == file[..m];
      HoldsMore(fifo, m, frame, pid, pid, text, count);
      FramedIsHeard(pid, rest, m, fifo + frame, text + file[..m], count + 1);
      assert fifo + frame + Framed(pid, rest, m) == fifo + Framed(pid, file, m);
      PaddedInParts(text, file[..m], rest);
      assert file == file[..m] + rest;
    }
  }

  /** The FIFO as its writers see it: everything ever written. */
  class Fifo {
    var bytes: seq<byte>

    method Write(frame: array<byte>)
      modifies this
      ensures bytes == old(bytes) + frame[..]
    {
      bytes := bytes + frame[..];
    }
  }

  /** A regular file open for reading. */
  class TextFile {
    const text: seq<byte>
    var offset: nat

    constructor (text: seq<byte>)
      ensures this.text == text && offset == 0
    {
      this.text := text;
      offset := 0;
    }

    method Read(buffer: array<byte>, at: nat, n: nat) returns (ret: nat)
      requires offset <= |text| && at + n == buffer.Length
      modifies this, buffer
      ensures ret == Available(text, old(offset), n) && offset == old(offset) + ret
      ensures buffer[..] == old(buffer[..at]) + text[old(offset)..offset] + old(buffer[at + ret..])
    {
      ret := 0;
      while ret < n && offset < |text|
        invariant offset == old(offset) + ret <= |text| && ret <= n
        invariant buffer[..] == old(buffer[..at]) + text[old(offset)..offset] + old(buffer[at + ret..])
      {
        buffer[at + ret] := text[offset];
        ret, offset := ret + 1, offset + 1;
      }
    }
  }

  method ZeroFill(buffer: array<byte>, at: nat)
    requires at <= buffer.Length
    modifies buffer
    ensures buffer[..] == old(buffer[..at]) + Zeros(buffer.Length - at)
  {
    var k := at;
    while k < buffer.Length
      invariant at <= k <= buffer.Length
      invariant buffer[..] == old(buffer[..at]) + Zeros(k - at) + old(buffer[k..])
    {
      buffer[k] := 0;
      k := k + 1;
    }
  }

  method PutHeader(buffer: array<byte>, pid: Pid)
    requires PID_SIZE <= buffer.Length
    modifies buffer
    ensures buffer[..PID_SIZE] == Header(pid)
  {
    var h := Header(pid);
    buffer[0], buffer[1], buffer[2], buffer[3] := h[0], h[1], h[2], h[3];
  }

  /** Once round the loop: a frame for what the read returned, and none when it returned nothing. */
  method CopyMessage(fifo: Fifo, txt: TextFile, buffer: array<byte>, pid: Pid, m: nat) returns (ret: nat)
    requires txt.offset <= |txt.text|
    requires buffer.Length == PID_SIZE + m && buffer[..PID_SIZE] == Header(pid)
    modifies fifo, txt, buffer
    ensures ret == Available(txt.text, old(txt.offset), m) && txt.offset == old(txt.offset) + ret
    ensures buffer[..PID_SIZE] == Header(pid)
    ensures fifo.bytes == old(fifo.bytes) + if ret == 0 then [] else
                            Header(pid) + (txt.text[old(txt.offset)..txt.offset] + Zeros(m - ret))
  {
    ret := txt.Read(buffer, PID_SIZE, m);
    if ret < m {
      ZeroFill(buffer, PID_SIZE + ret);
    }
    if ret > 0 {
      fifo.Write(buffer);
    }
  }

  lemma {:induction false} FramedInParts(pid: Pid, before: seq<byte>, text: seq<byte>, i: nat, j: nat, m: nat)
    requires 0 < m && i <= |text| && j == i + Available(text, i, m)
    ensures before + (if j == i then [] else Header(pid) + (text[i..j] + Zeros(m - (j - i))))
            + Framed(pid, text[j..], m)
         == before + Framed(pid, text[i..], m)
  {
    var head, rest := text[i..j], text[j..];
    assert text[i..] == head + rest;
    if j - i == m {
      assert (head + rest)[..m] == head && (head + rest)[m..] == rest;
      assert Header(pid) + (head + Zeros(0)) + Framed(pid, rest, m) == Header(pid) + head + Framed(pid, rest, m);
    } else {
      assert rest == [] && head + rest == head;
    }
  }

  /** One writer's loop, with one buffer for all frames: what reaches the FIFO is the framed rest of the file. */
  method WriteToFifo(fifo: Fifo, txt: TextFile, pid: Pid, m: nat)
    requires m > 0 && txt.offset <= |txt.text|
    modifies fifo, txt
    ensures fifo.bytes == old(fifo.bytes) + Framed(pid, txt.text[old(txt.offset)..], m)
    ensures txt.offset == |txt.text|
  {
    var buffer := new byte[PID_SIZE + m];
    PutHeader(buffer, pid);
    var more := true;
    while more
      invariant fresh(buffer) && buffer.Length == PID_SIZE + m && buffer[..PID_SIZE] == Header(pid)
      invariant txt.offset <= |txt.text| && (!more ==> txt.offset == |txt.text|)
      invariant fifo.bytes + Framed(pid, txt.text[txt.offset..], m)
             == old(fifo.bytes) + Framed(pid, txt.text[old(txt.offset)..], m)
      decreases |txt.text| - txt.offset, more
    {
      ghost var i, before := txt.offset, fifo.bytes;
      var ret := CopyMessage(fifo, txt, buffer, pid, m);
      FramedInParts(pid, before, txt.text, i, txt.offset, m);
      more := ret == m;
    }
  }
}
