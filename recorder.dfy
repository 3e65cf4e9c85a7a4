/**
 * The capture loop of `audioRecorder`: read chunks from the input line into
 * an 8192-byte buffer, append every chunk to the recording, and decide after
 * each chunk whether speech has started and whether recording should stop.
 *
 * The device and the clock are inputs: a finite sequence of reads, each
 * carrying the bytes the line delivered and the clock reading taken while
 * that chunk was examined.
 */
module Recorder {
  import opened Wrappers
  import opened Volume

  /** Size of the buffer handed to every `line.read` call. */
  const BUFFER_SIZE: nat := 8192

  /** The capture format record (`AudioConfig`) and the frame size its `toAudioFormat` declares. */
  datatype AudioConfig = AudioConfig(sampleRate: real, sampleSizeInBits: nat, channels: nat, signed: bool, bigEndian: bool)
  {
    function FrameSize(): (n: nat)
      ensures sampleSizeInBits % 8 == 0 ==> 8 * n == sampleSizeInBits * channels
    {
      (sampleSizeInBits / 8) * channels
    }
  }

  /** 44100 Hz, 16-bit, mono, signed, little-endian. */
  const AUDIO_CONFIG := AudioConfig(44100.0, 16, 1, true, false)

  /** The three detection settings: loudness threshold, allowed silence (ms) and pre-speech cap (ms). */
  datatype DetectorConfig = DetectorConfig(volumeThreshold: real, silenceDuration: int, maxRecordTime: int)

  /**
   * One `line.read(buffer, 0, buffer.length)`: the bytes the line delivered
   * (empty for a read that returned 0 or less) and the clock reading, in ms.
   */
  datatype Read = Read(data: seq<JByte>, now: int)

  predicate Fits(r: Read)
  {
    |r.data| <= BUFFER_SIZE
  }

  predicate AllFit(chunks: seq<Read>)
  {
    forall k :: 0 <= k < |chunks| ==> Fits(chunks[k])
  }

  /**
   * The loop's local state: the device buffer (stale bytes past the last
   * read stay in it), the accumulated recording, the speech flag, the time
   * of the last loud chunk and the start time.
   */
  datatype Session = Session(buffer: seq<JByte>, audio: seq<JByte>, hasValidAudio: bool, lastSoundTime: int, startTime: int)

  predicate Buffered(s: Session)
  {
    |s.buffer| == BUFFER_SIZE
  }

  /** The state before the first read: a zeroed buffer, nothing recorded, no speech yet. */
  function Start(t: int): (s: Session)
    ensures Buffered(s)
  {
    Session(seq(BUFFER_SIZE, _ => 0), [], false, t, t)
  }

  /** The buffer after the line wrote `data` into its front. */
  function Deliver(buffer: seq<JByte>, data: seq<JByte>): seq<JByte>
    requires |data| <= |buffer|
  {
    data + buffer[|data|..]
  }

  /** A positive read is loud when the volume of its bytes, as they sit in the buffer, exceeds the threshold. */
  predicate Heard(cfg: DetectorConfig, s: Session, r: Read)
    requires Buffered(s) && Fits(r)
  {
    |r.data| > 0 && Mav(Deliver(s.buffer, r.data), |r.data|) > cfg.volumeThreshold
  }

  /** The state after handling one read (lines 154-165); a read of no bytes changes nothing. */
  function Advance(cfg: DetectorConfig, s: Session, r: Read): (s': Session)
    requires Buffered(s) && Fits(r)
    ensures Buffered(s')
    ensures s'.audio == s.audio + r.data && s'.startTime == s.startTime
    ensures s.hasValidAudio ==> s'.hasValidAudio
    ensures s'.lastSoundTime == (if Heard(cfg, s, r) then r.now else s.lastSoundTime)
  {
    if |r.data| == 0 then s
    else
      var loud := Heard(cfg, s, r);
      Session(Deliver(s.buffer, r.data), s.audio + r.data,
              s.hasValidAudio || loud,
              if loud then r.now else s.lastSoundTime,
              s.startTime)
  }

  datatype StopReason = MaxRecordTime | Silence

  /** The two break rules of lines 168-179, checked on the state after a positive read. */
  function Decide(cfg: DetectorConfig, s: Session, r: Read): (d: Option<StopReason>)
    ensures d.Some? ==> |r.data| > 0
    ensures d == Some(MaxRecordTime) ==> !s.hasValidAudio
    ensures d == Some(Silence) ==> s.hasValidAudio
  {
    if |r.data| == 0 then None
    else if !s.hasValidAudio && r.now - s.startTime > cfg.maxRecordTime then Some(MaxRecordTime)
    else if s.hasValidAudio && r.now - s.lastSoundTime > cfg.silenceDuration then Some(Silence)
    else None
  }

  /** Where the loop ended: at the read with index `at`, or it was still reading when the input ran out. */
  datatype Progress = Stopped(reason: StopReason, at: nat) | Exhausted

  /** The loop from read `i` on, as a function: the final state and where it ended. */
  function RunFrom(cfg: DetectorConfig, s: Session, chunks: seq<Read>, i: nat): (Session, Progress)
    requires Buffered(s) && AllFit(chunks) && i <= |chunks|
    decreases |chunks| - i
  {
    if i == |chunks| then (s, Exhausted)
    else
      var s' := Advance(cfg, s, chunks[i]);
      match Decide(cfg, s', chunks[i])
      case Some(reason) => (s', Stopped(reason, i))
      case None => RunFrom(cfg, s', chunks, i + 1)
  }

  /** The state after handling reads `i` to `j - 1`, whatever the break rules say. */
  function Fold(cfg: DetectorConfig, s: Session, chunks: seq<Read>, i: nat, j: nat): (s': Session)
    requires Buffered(s) && AllFit(chunks) && i <= j <= |chunks|
    ensures Buffered(s')
    decreases j - i
  {
    if i == j then s else Fold(cfg, Advance(cfg, s, chunks[i]), chunks, i + 1, j)
  }

  /** Whether a break rule fires on read `j` when the loop started at read `i` in state `s`. */
  predicate Fires(cfg: DetectorConfig, s: Session, chunks: seq<Read>, i: nat, j: nat)
    requires Buffered(s) && AllFit(chunks) && i <= j < |chunks|
  {
    Decide(cfg, Fold(cfg, s, chunks, i, j + 1), chunks[j]).Some?
  }

  /** The bytes of reads `i` to `j - 1`, in order. */
  function Concat(chunks: seq<Read>, i: nat, j: nat): seq<JByte>
    requires i <= j <= |chunks|
    decreases j - i
  {
    if i == j then [] else chunks[i].data + Concat(chunks, i + 1, j)
  }

  /** How many reads the loop consumed. */
  function Consumed(p: Progress, n: nat): nat
  {
    match p
    case Stopped(_, k) => k + 1
    case Exhausted => n
  }

  // ---------------------------------------------------------------------
  // The loop and the method around it
  // ---------------------------------------------------------------------

  /**
   * The read loop of lines 144-181 over a finite input. Returns the
   * recording, the speech flag, the last loud time and where it ended.
   */
  method RecordLoop(cfg: DetectorConfig, startTime: int, chunks: seq<Read>)
    returns (audio: seq<JByte>, hasValidAudio: bool, lastSoundTime: int, progress: Progress)
    requires AllFit(chunks)
    ensures var (s, p) := RunFrom(cfg, Start(startTime), chunks, 0);
            audio == s.audio && hasValidAudio == s.hasValidAudio &&
            lastSoundTime == s.lastSoundTime && progress == p
  {
    var buffer := new JByte[BUFFER_SIZE](_ => 0);
    audio := [];
    lastSoundTime := startTime;
    hasValidAudio := false;
    progress := Exhausted;
    var i := 0;
    assert buffer[..] == Start(startTime).buffer;
    while i < |chunks|
      invariant 0 <= i <= |chunks| && buffer.Length == BUFFER_SIZE
      invariant RunFrom(cfg, Start(startTime), chunks, 0)
             == RunFrom(cfg, Session(buffer[..], audio, hasValidAudio, lastSoundTime, startTime), chunks, i)
    {
      var r := chunks[i];
      var bytesRead := |r.data|;
      if bytesRead > 0 {
        ghost var before := Session(buffer[..], audio, hasValidAudio, lastSoundTime, startTime);
        forall k | 0 <= k < bytesRead {
          buffer[k] := r.data[k];
        }
        assert buffer[..] == Deliver(before.buffer, r.data);
        audio := audio + r.data;
        var currentVolume := CalculateVolume(buffer, bytesRead);
        if currentVolume > cfg.volumeThreshold {
          lastSoundTime := r.now;
          if !hasValidAudio {
            hasValidAudio := true;
          }
        }
        assert Session(buffer[..], audio, hasValidAudio, lastSoundTime, startTime) == Advance(cfg, before, r);
        if !hasValidAudio && r.now - startTime > cfg.maxRecordTime {
          progress := Stopped(MaxRecordTime, i);
          return;
        }
        if hasValidAudio {
          if r.now - lastSoundTime > cfg.silenceDuration {
            progress := Stopped(Silence, i);
            return;
          }
        }
      }
      i := i + 1;
    }
  }

  /** What `audioRecorder` yields: no speech (buffer discarded), a saved recording, or still reading. */
  datatype Recording = NoValidAudio | Saved(wav: seq<JByte>, frameLength: nat) | StillRecording

  /** The outcome of a finished (or unfinished) loop, as lines 186-201 turn it into a result. */
  function Outcome(result: (Session, Progress)): (rec: Recording)
    ensures rec.StillRecording? <==> result.1.Exhausted?
    ensures rec.NoValidAudio? ==> !result.0.hasValidAudio
    ensures rec.Saved? ==> result.0.hasValidAudio && rec.wav == result.0.audio
                           && 2 * rec.frameLength <= |rec.wav| < 2 * rec.frameLength + 2
  {
    var (s, p) := result;
    if p.Exhausted? then StillRecording
    else if !s.hasValidAudio then NoValidAudio
    else Saved(s.audio, |s.audio| / AUDIO_CONFIG.FrameSize())
  }

  /**
   * `audioRecorder`: run the loop, then discard the recording when no
   * speech was heard, or save it with `size / frameSize` frames.
   */
  method AudioRecorder(cfg: DetectorConfig, startTime: int, chunks: seq<Read>) returns (r: Recording)
    requires AllFit(chunks)
    ensures r == Outcome(RunFrom(cfg, Start(startTime), chunks, 0))
    ensures r.Saved? ==> r.frameLength == |r.wav| / 2
  {
    var audio, hasValidAudio, lastSoundTime, progress := RecordLoop(cfg, startTime, chunks);
    if progress.Exhausted? {
      return StillRecording;
    }
    if !hasValidAudio {
      audio := [];
      return NoValidAudio;
    }
    r := Saved(audio, |audio| / AUDIO_CONFIG.FrameSize());
  }

  // ---------------------------------------------------------------------
  // Properties of the loop
  // ---------------------------------------------------------------------

  /** A read that fits the buffer keeps every inspected byte pair of `calculateVolume` inside the buffer. */
  lemma BufferKeepsVolumeInBounds(length: nat)
    requires 0 < length <= BUFFER_SIZE
    ensures ReadsInBounds(BUFFER_SIZE, length)
  {
  }

  /**
   * The loop ends at the first read on which a break rule fires, in the
   * state reached by handling every read up to and including it; when the
   * input runs out, no rule fired on any read.
   */
  lemma {:induction false} RunIsFirstFiring(cfg: DetectorConfig, s: Session, chunks: seq<Read>, i: nat)
    requires Buffered(s) && AllFit(chunks) && i <= |chunks|
    ensures var (s', p) := RunFrom(cfg, s, chunks, i);
      match p
      case Stopped(reason, k) =>
        && i <= k < |chunks|
        && s' == Fold(cfg, s, chunks, i, k + 1)
        && Decide(cfg, s', chunks[k]) == Some(reason)
        && forall j :: i <= j < k ==> !Fires(cfg, s, chunks, i, j)
      case Exhausted =>
        && s' == Fold(cfg, s, chunks, i, |chunks|)
        && forall j :: i <= j < |chunks| ==> !Fires(cfg, s, chunks, i, j)
    decreases |chunks| - i
  {
    if i < |chunks| {
      var s1 := Advance(cfg, s, chunks[i]);
      assert Fold(cfg, s, chunks, i, i + 1) == s1 by {
        assert Fold(cfg, s1, chunks, i + 1, i + 1) == s1;
      }
      if Decide(cfg, s1, chunks[i]).None? {
        RunIsFirstFiring(cfg, s1, chunks, i + 1);
        forall j | i + 1 <= j <= |chunks|
          ensures Fold(cfg, s, chunks, i, j) == Fold(cfg, s1, chunks, i + 1, j)
        {
        }
        forall j | i < j < |chunks|
          ensures Fires(cfg, s, chunks, i, j) == Fires(cfg, s1, chunks, i + 1, j)
        {
        }
        assert !Fires(cfg, s, chunks, i, i);
      }
    }
  }

  /** A read that delivered no bytes is skipped: no state change and no clock check. */
  lemma EmptyReadIsIgnored(cfg: DetectorConfig, s: Session, chunks: seq<Read>, i: nat)
    requires Buffered(s) && AllFit(chunks) && i < |chunks| && |chunks[i].data| == 0
    ensures RunFrom(cfg, s, chunks, i) == RunFrom(cfg, s, chunks, i + 1)
  {
  }

  /** The recording is exactly the bytes of every consumed read, loud or quiet, in order. */
  lemma {:induction false} RunAudioIsConcat(cfg: DetectorConfig, s: Session, chunks: seq<Read>, i: nat)
    requires Buffered(s) && AllFit(chunks) && i <= |chunks|
    ensures var (s', p) := RunFrom(cfg, s, chunks, i);
      i <= Consumed(p, |chunks|) <= |chunks| &&
      s'.audio == s.audio + Concat(chunks, i, Consumed(p, |chunks|))
    decreases |chunks| - i
  {
    if i < |chunks| {
      var s1 := Advance(cfg, s, chunks[i]);
      if Decide(cfg, s1, chunks[i]).None? {
        RunAudioIsConcat(cfg, s1, chunks, i + 1);
        var n := Consumed(RunFrom(cfg, s, chunks, i).1, |chunks|);
        assert Concat(chunks, i, n) == chunks[i].data + Concat(chunks, i + 1, n);
      } else {
        assert Concat(chunks, i, i + 1) == chunks[i].data + Concat(chunks, i + 1, i + 1);
      }
    }
  }

  /** Once speech has been heard the flag stays on, and the start time never changes. */
  lemma {:induction false} RunKeepsValid(cfg: DetectorConfig, s: Session, chunks: seq<Read>, i: nat)
    requires Buffered(s) && AllFit(chunks) && i <= |chunks|
    ensures s.hasValidAudio ==> RunFrom(cfg, s, chunks, i).0.hasValidAudio
    ensures RunFrom(cfg, s, chunks, i).0.startTime == s.startTime
    decreases |chunks| - i
  {
    if i < |chunks| {
      var s1 := Advance(cfg, s, chunks[i]);
      if Decide(cfg, s1, chunks[i]).None? {
        RunKeepsValid(cfg, s1, chunks, i + 1);
      }
    }
  }

  /** The speech flag is on exactly when it was on at the start or some handled read was loud. */
  lemma {:induction false} FoldValidIffHeard(cfg: DetectorConfig, s: Session, chunks: seq<Read>, i: nat, j: nat)
    requires Buffered(s) && AllFit(chunks) && i <= j <= |chunks|
    ensures Fold(cfg, s, chunks, i, j).hasValidAudio
        <==> s.hasValidAudio || exists m :: i <= m < j && Heard(cfg, Fold(cfg, s, chunks, i, m), chunks[m])
    decreases j - i
  {
    if i < j {
      var s1 := Advance(cfg, s, chunks[i]);
      FoldValidIffHeard(cfg, s1, chunks, i + 1, j);
      assert Fold(cfg, s, chunks, i, i) == s;
      forall m | i + 1 <= m <= j
        ensures Fold(cfg, s, chunks, i, m) == Fold(cfg, s1, chunks, i + 1, m)
      {
      }
    }
  }

  /** Handling reads `i` to `j` is handling reads `i` to `j - 1`, then read `j`. */
  lemma {:induction false} FoldSnoc(cfg: DetectorConfig, s: Session, chunks: seq<Read>, i: nat, j: nat)
    requires Buffered(s) && AllFit(chunks) && i <= j < |chunks|
    ensures Fold(cfg, s, chunks, i, j + 1) == Advance(cfg, Fold(cfg, s, chunks, i, j), chunks[j])
    decreases j - i
  {
    if i < j {
      FoldSnoc(cfg, Advance(cfg, s, chunks[i]), chunks, i + 1, j);
    }
  }

  /** Read `m` was loud, in the state reached by handling reads `i` to `m - 1`. */
  ghost predicate LoudAt(cfg: DetectorConfig, s: Session, chunks: seq<Read>, i: nat, m: nat)
    requires Buffered(s) && AllFit(chunks) && i <= m < |chunks|
  {
    Heard(cfg, Fold(cfg, s, chunks, i, m), chunks[m])
  }

  /**
   * The last loud time is the clock of the last loud read among those
   * handled, or the time it started with when none of them was loud.
   */
  lemma {:induction false} FoldLastSoundIsLastHeard(cfg: DetectorConfig, s: Session, chunks: seq<Read>, i: nat, j: nat)
    requires Buffered(s) && AllFit(chunks) && i <= j <= |chunks|
    ensures var s' := Fold(cfg, s, chunks, i, j);
      || (exists m :: i <= m < j && LoudAt(cfg, s, chunks, i, m) && s'.lastSoundTime == chunks[m].now
            && forall n :: m < n < j ==> !LoudAt(cfg, s, chunks, i, n))
      || ((forall m :: i <= m < j ==> !LoudAt(cfg, s, chunks, i, m)) && s'.lastSoundTime == s.lastSoundTime)
    decreases j - i
  {
    if i < j {
      var before := Fold(cfg, s, chunks, i, j - 1);
      var after := Fold(cfg, s, chunks, i, j);
      FoldLastSoundIsLastHeard(cfg, s, chunks, i, j - 1);
      FoldSnoc(cfg, s, chunks, i, j - 1);
      assert after == Advance(cfg, before, chunks[j - 1]);
      if LoudAt(cfg, s, chunks, i, j - 1) {
        assert after.lastSoundTime == chunks[j - 1].now;
      } else {
        assert after.lastSoundTime == before.lastSoundTime;
        if m :| (&& i <= m < j - 1 && LoudAt(cfg, s, chunks, i, m) && before.lastSoundTime == chunks[m].now
                 && forall n :: m < n < j - 1 ==> !LoudAt(cfg, s, chunks, i, n)) {
          assert forall n :: m < n < j ==> !LoudAt(cfg, s, chunks, i, n);
        }
      }
    }
  }

  /**
   * With a clock that never reads earlier than the start, the last loud
   * time stays between the start time and the latest clock reading.
   */
  lemma {:induction false} FoldKeepsLastSoundAfterStart(cfg: DetectorConfig, s: Session, chunks: seq<Read>, i: nat, j: nat, latest: int)
    requires Buffered(s) && AllFit(chunks) && i <= j <= |chunks|
    requires s.startTime <= s.lastSoundTime <= latest
    requires forall m :: i <= m < j ==> s.startTime <= chunks[m].now <= latest
    ensures var s' := Fold(cfg, s, chunks, i, j);
      s'.startTime == s.startTime && s'.startTime <= s'.lastSoundTime <= latest
    decreases j - i
  {
    if i < j {
      FoldKeepsLastSoundAfterStart(cfg, Advance(cfg, s, chunks[i]), chunks, i + 1, j, latest);
    }
  }

  /** The loop stops on the cap only without speech, and on silence only after speech. */
  lemma StopReasonMatchesFlag(cfg: DetectorConfig, startTime: int, chunks: seq<Read>)
    requires AllFit(chunks)
    ensures var (s, p) := RunFrom(cfg, Start(startTime), chunks, 0);
      (p.Stopped? && p.reason == MaxRecordTime ==> !s.hasValidAudio) &&
      (p.Stopped? && p.reason == Silence ==> s.hasValidAudio)
    ensures Outcome(RunFrom(cfg, Start(startTime), chunks, 0)) == NoValidAudio
        <==> RunFrom(cfg, Start(startTime), chunks, 0).1.Stopped?
             && RunFrom(cfg, Start(startTime), chunks, 0).1.reason == MaxRecordTime
  {
    RunIsFirstFiring(cfg, Start(startTime), chunks, 0);
  }

  /**
   * A silence stop is measured from the last loud read: some read up to the
   * stopping one was loud, none after it was, and the stopping read's clock
   * is more than the silence duration past that read's clock.
   */
  lemma SilenceStopsAfterLastLoudRead(cfg: DetectorConfig, startTime: int, chunks: seq<Read>)
    requires AllFit(chunks)
    ensures var (s, p) := RunFrom(cfg, Start(startTime), chunks, 0);
      p.Stopped? && p.reason == Silence ==>
        && p.at < |chunks|
        && (exists m :: 0 <= m <= p.at && LoudAt(cfg, Start(startTime), chunks, 0, m)
              && chunks[p.at].now - chunks[m].now > cfg.silenceDuration
              && forall n :: m < n <= p.at ==> !LoudAt(cfg, Start(startTime), chunks, 0, n))
  {
    var s0 := Start(startTime);
    var (s, p) := RunFrom(cfg, s0, chunks, 0);
    RunIsFirstFiring(cfg, s0, chunks, 0);
    if p.Stopped? && p.reason == Silence {
      var k := p.at;
      assert s == Fold(cfg, s0, chunks, 0, k + 1);
      var m := LastLoudRead(cfg, s0, chunks, 0, k + 1);
      assert chunks[k].now - chunks[m].now > cfg.silenceDuration;
    }
  }

  /** When the speech flag was off and is on after reads `i` to `j - 1`, the last loud time is the clock of the last loud read. */
  lemma LastLoudRead(cfg: DetectorConfig, s: Session, chunks: seq<Read>, i: nat, j: nat) returns (m: nat)
    requires Buffered(s) && AllFit(chunks) && i <= j <= |chunks|
    requires !s.hasValidAudio && Fold(cfg, s, chunks, i, j).hasValidAudio
    ensures i <= m < j && LoudAt(cfg, s, chunks, i, m)
    ensures Fold(cfg, s, chunks, i, j).lastSoundTime == chunks[m].now
    ensures forall n :: m < n < j ==> !LoudAt(cfg, s, chunks, i, n)
  {
    FoldValidIffHeard(cfg, s, chunks, i, j);
    var heard :| i <= heard < j && Heard(cfg, Fold(cfg, s, chunks, i, heard), chunks[heard]);
    assert LoudAt(cfg, s, chunks, i, heard);
    FoldLastSoundIsLastHeard(cfg, s, chunks, i, j);
    m :| i <= m < j && LoudAt(cfg, s, chunks, i, m) && Fold(cfg, s, chunks, i, j).lastSoundTime == chunks[m].now
      && forall n :: m < n < j ==> !LoudAt(cfg, s, chunks, i, n);
  }

  predicate AllZero(bytes: seq<JByte>)
  {
    forall k :: 0 <= k < |bytes| ==> bytes[k] == 0
  }

  /** A chunk of zero bytes over a zeroed buffer is quiet and leaves the buffer zeroed. */
  lemma SilentChunkIsQuiet(cfg: DetectorConfig, s: Session, r: Read)
    requires Buffered(s) && Fits(r) && cfg.volumeThreshold >= 0.0
    requires AllZero(s.buffer) && AllZero(r.data)
    ensures !Heard(cfg, s, r)
    ensures AllZero(Advance(cfg, s, r).buffer)
    ensures Advance(cfg, s, r).hasValidAudio == s.hasValidAudio
    ensures Advance(cfg, s, r).startTime == s.startTime
  {
    if |r.data| > 0 {
      var buf := Deliver(s.buffer, r.data);
      assert AllZero(buf);
      MavOfSilence(buf, |r.data|);
    }
  }

  /**
   * Silent input (every byte zero, threshold not negative) never turns the
   * speech flag on; the loop stops on the pre-speech cap at the first
   * positive read whose clock is past it, and otherwise keeps reading.
   */
  lemma {:induction false} SilenceNeverCountsAsSpeech(cfg: DetectorConfig, s: Session, chunks: seq<Read>, i: nat)
    requires Buffered(s) && AllFit(chunks) && i <= |chunks|
    requires cfg.volumeThreshold >= 0.0 && AllZero(s.buffer) && !s.hasValidAudio
    requires forall k :: 0 <= k < |chunks| ==> AllZero(chunks[k].data)
    ensures var (s', p) := RunFrom(cfg, s, chunks, i);
      && !s'.hasValidAudio
      && (p.Stopped? ==> i <= p.at < |chunks| && p.reason == MaxRecordTime && |chunks[p.at].data| > 0 && chunks[p.at].now - s.startTime > cfg.maxRecordTime)
      && (p.Exhausted? ==> forall k :: i <= k < |chunks| && |chunks[k].data| > 0 ==> chunks[k].now - s.startTime <= cfg.maxRecordTime)
    decreases |chunks| - i
  {
    if i < |chunks| {
      var r := chunks[i];
      SilentChunkIsQuiet(cfg, s, r);
      var s1 := Advance(cfg, s, r);
      assert !s1.hasValidAudio && s1.startTime == s.startTime;
      if Decide(cfg, s1, r).None? {
        SilenceNeverCountsAsSpeech(cfg, s1, chunks, i + 1);
        assert RunFrom(cfg, s, chunks, i) == RunFrom(cfg, s1, chunks, i + 1);
        forall k | i <= k < |chunks| && |chunks[k].data| > 0 && RunFrom(cfg, s1, chunks, i + 1).1.Exhausted?
          ensures chunks[k].now - s.startTime <= cfg.maxRecordTime
        {
          if k == i {
            assert Decide(cfg, s1, r).None?;
          }
        }
      } else {
        assert RunFrom(cfg, s, chunks, i) == (s1, Stopped(MaxRecordTime, i));
      }
    }
  }

  /** With silent input the recorder reports no speech, or is still waiting for the cap. */
  lemma SilentRecordingIsDiscarded(cfg: DetectorConfig, startTime: int, chunks: seq<Read>)
    requires AllFit(chunks) && cfg.volumeThreshold >= 0.0
    requires forall k :: 0 <= k < |chunks| ==> AllZero(chunks[k].data)
    ensures Outcome(RunFrom(cfg, Start(startTime), chunks, 0)) in {NoValidAudio, StillRecording}
    ensures (exists k :: 0 <= k < |chunks| && |chunks[k].data| > 0 && chunks[k].now - startTime > cfg.maxRecordTime)
        ==> Outcome(RunFrom(cfg, Start(startTime), chunks, 0)) == NoValidAudio
  {
    SilenceNeverCountsAsSpeech(cfg, Start(startTime), chunks, 0);
  }
}
