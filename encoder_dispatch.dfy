/**
 * The encoder dispatch rule of TranscodeEncoder::Create: a fixed, ordered list
 * of candidate backends per codec, tried one after the other until one accepts
 * its configuration.
 *
 * The hardware-capability singleton and the SUPPORT_HWACCELS build switch are
 * the Platform record; the outcome of each concrete backend's Configure is the
 * uninterpreted predicate `accepts`.
 */
module EncoderDispatch {
  import opened Wrappers

  /** The codec ids the dispatch switch distinguishes; Other is any id that
      reaches its default branch. */
  datatype CodecId = H264 | H265 | Vp8 | Jpeg | Png | Aac | Opus | Other(raw: int)

  /** Accelerator family of a backend. */
  datatype Family = Software | Qsv | Nv

  /** The concrete encoder classes Create can construct. */
  datatype Backend =
    | AvcQsv        // EncoderAVCxQSV
    | AvcNv         // EncoderAVCxNV
    | AvcOpenH264   // EncoderAVCxOpenH264
    | HevcQsv       // EncoderHEVCxQSV
    | HevcNv        // EncoderHEVCxNV
    | Vp8Encoder    // EncoderVP8
    | JpegEncoder   // EncoderJPEG
    | PngEncoder    // EncoderPNG
    | AacEncoder    // EncoderAAC
    | OpusEncoder   // EncoderOPUS, the legacy libopus encoder
    | FfOpusEncoder // EncoderFFOPUS

  /** What the dispatch reads from its environment: the build switch and the
      two answers of the GPU capability singleton. */
  datatype Platform = Platform(supportHwaccels: bool, qsvSupported: bool, nvSupported: bool)

  /** The compile-time switch selecting the legacy libopus encoder. */
  const USE_LEGACY_LIBOPUS: bool := false

  function FamilyOf(b: Backend): Family
  {
    match b
    case AvcQsv | HevcQsv => Qsv
    case AvcNv | HevcNv => Nv
    case _ => Software
  }

  function CodecOf(b: Backend): CodecId
  {
    match b
    case AvcQsv | AvcNv | AvcOpenH264 => H264
    case HevcQsv | HevcNv => H265
    case Vp8Encoder => Vp8
    case JpegEncoder => Jpeg
    case PngEncoder => Png
    case AacEncoder => Aac
    case OpusEncoder | FfOpusEncoder => Opus
  }

  /** True when the platform lets a hardware family be tried for a track. */
  predicate Usable(f: Family, useHwaccel: bool, p: Platform)
  {
    match f
    case Software => true
    case Qsv => useHwaccel && p.supportHwaccels && p.qsvSupported
    case Nv => useHwaccel && p.supportHwaccels && p.nvSupported
  }

  /** The hardware prefix of a candidate list: QSV before NV, each only when
      acceleration is requested, compiled in and reported by the GPU. */
  function HardwareCandidates(qsv: Backend, nv: Backend, useHwaccel: bool, p: Platform): (r: seq<Backend>)
    ensures |r| == if useHwaccel && p.supportHwaccels
                   then (if p.qsvSupported then 1 else 0) + (if p.nvSupported then 1 else 0)
                   else 0
    ensures forall k :: 0 <= k < |r| ==> r[k] == qsv || r[k] == nv
    ensures useHwaccel && p.supportHwaccels && p.qsvSupported ==> r[0] == qsv
    ensures useHwaccel && p.supportHwaccels && p.nvSupported ==> r[|r| - 1] == nv
  {
    if useHwaccel && p.supportHwaccels then
      (if p.qsvSupported then [qsv] else []) + (if p.nvSupported then [nv] else [])
    else []
  }

  /** The candidates Create constructs for a codec, in the order it tries them. */
  function Candidates(codec: CodecId, useHwaccel: bool, p: Platform): (r: seq<Backend>)
    ensures |r| <= 3
    ensures r == [] <==>
      codec.Other? || (codec == H265 && !Usable(Qsv, useHwaccel, p) && !Usable(Nv, useHwaccel, p))
    ensures codec == H264 ==> r[|r| - 1] == AvcOpenH264
    ensures forall k :: 0 <= k < |r| - 1 ==> FamilyOf(r[k]) != Software
  {
    match codec
    case H264 => HardwareCandidates(AvcQsv, AvcNv, useHwaccel, p) + [AvcOpenH264]
    case H265 => HardwareCandidates(HevcQsv, HevcNv, useHwaccel, p)
    case Vp8 => [Vp8Encoder]
    case Jpeg => [JpegEncoder]
    case Png => [PngEncoder]
    case Aac => [AacEncoder]
    case Opus => if USE_LEGACY_LIBOPUS then [OpusEncoder] else [FfOpusEncoder]
    case Other(_) => []
  }

  predicate NoneAccepted(cs: seq<Backend>, accepts: Backend -> bool)
  {
    forall j :: 0 <= j < |cs| ==> !accepts(cs[j])
  }

  /**
   * The pointer Create holds after trying the candidates `cs`, when it held
   * `last` before: each candidate overwrites it, the first that accepts stops
   * the trial, and a failed candidate is never reset to null.
   */
  function SelectFrom(cs: seq<Backend>, last: Option<Backend>, accepts: Backend -> bool): (r: Option<Backend>)
    ensures r.None? <==> cs == [] && last.None?
    ensures r.Some? ==> r.value in cs || r == last
    decreases |cs|
  {
    if cs == [] then last
    else if accepts(cs[0]) then Some(cs[0])
    else SelectFrom(cs[1..], Some(cs[0]), accepts)
  }

  /**
   * The candidates Create constructs (and configures) from `cs`: every one up
   * to and including the first that accepts, or all of them.
   */
  function Tried(cs: seq<Backend>, accepts: Backend -> bool): (r: seq<Backend>)
    ensures |r| <= |cs| && r == cs[..|r|]
    ensures cs != [] ==> r != []
    ensures |r| > 0 ==> NoneAccepted(r[..|r| - 1], accepts)
    ensures |r| < |cs| ==> accepts(r[|r| - 1])
    decreases |cs|
  {
    if cs == [] then []
    else if accepts(cs[0]) then [cs[0]]
    else [cs[0]] + Tried(cs[1..], accepts)
  }

  /** The backend of the pointer Create returns, None for nullptr. */
  function Dispatch(codec: CodecId, useHwaccel: bool, p: Platform, accepts: Backend -> bool): (r: Option<Backend>)
    ensures r.None? <==> Candidates(codec, useHwaccel, p) == []
    ensures r.Some? ==> r.value in Candidates(codec, useHwaccel, p)
  {
    SelectFrom(Candidates(codec, useHwaccel, p), None, accepts)
  }

  // ---------------------------------------------------------------------------
  // Selection over any candidate list

  /** The result is the last candidate constructed, or the pointer held before
      when none was constructed. */
  lemma {:induction false} SelectIsLastTried(cs: seq<Backend>, last: Option<Backend>, accepts: Backend -> bool)
    ensures var t := Tried(cs, accepts);
      SelectFrom(cs, last, accepts) == if t == [] then last else Some(t[|t| - 1])
    decreases |cs|
  {
    if cs != [] && !accepts(cs[0]) {
      SelectIsLastTried(cs[1..], Some(cs[0]), accepts);
      var t' := Tried(cs[1..], accepts);
      if t' != [] {
        assert ([cs[0]] + t')[|t'|] == t'[|t'| - 1];
      }
    }
  }

  /** The first accepting candidate is the result, and no later candidate is
      constructed. */
  lemma {:induction false} FirstAcceptedWins(cs: seq<Backend>, i: nat, last: Option<Backend>, accepts: Backend -> bool)
    requires i < |cs| && accepts(cs[i]) && NoneAccepted(cs[..i], accepts)
    ensures SelectFrom(cs, last, accepts) == Some(cs[i])
    ensures Tried(cs, accepts) == cs[..i + 1]
    decreases i
  {
    if i > 0 {
      assert cs[0] == cs[..i][0];
      var between := cs[1..][..i - 1];
      assert NoneAccepted(between, accepts) by {
        forall j | 0 <= j < i - 1 ensures !accepts(between[j]) {
          assert between[j] == cs[..i][j + 1];
        }
      }
      FirstAcceptedWins(cs[1..], i - 1, Some(cs[0]), accepts);
      assert cs[..i + 1] == [cs[0]] + cs[1..][..i];
    }
  }

  /** When every candidate fails, all are constructed and the last one is the
      result; with no candidate at all the pointer is left as it was. */
  lemma {:induction false} NoneAcceptedGivesLast(cs: seq<Backend>, last: Option<Backend>, accepts: Backend -> bool)
    requires NoneAccepted(cs, accepts)
    ensures SelectFrom(cs, last, accepts) == if cs == [] then last else Some(cs[|cs| - 1])
    ensures Tried(cs, accepts) == cs
    decreases |cs|
  {
    if cs != [] {
      assert NoneAccepted(cs[1..], accepts) by {
        forall j | 0 <= j < |cs| - 1 ensures !accepts(cs[1..][j]) {
          assert cs[1..][j] == cs[j + 1];
        }
      }
      NoneAcceptedGivesLast(cs[1..], Some(cs[0]), accepts);
      assert cs == [cs[0]] + cs[1..];
    }
  }

  /** A returned encoder is a configured one exactly when some candidate
      accepted; otherwise it is the unconfigured last candidate. */
  lemma {:induction false} ResultConfiguredIff(cs: seq<Backend>, accepts: Backend -> bool)
    requires cs != []
    ensures SelectFrom(cs, None, accepts).Some?
    ensures accepts(SelectFrom(cs, None, accepts).value) <==> !NoneAccepted(cs, accepts)
  {
    if NoneAccepted(cs, accepts) {
      NoneAcceptedGivesLast(cs, None, accepts);
    } else {
      var i := FirstAccepted(cs, accepts);
      FirstAcceptedWins(cs, i, None, accepts);
    }
  }

  /** Index of the first accepting candidate. */
  lemma {:induction false} FirstAccepted(cs: seq<Backend>, accepts: Backend -> bool) returns (i: nat)
    requires !NoneAccepted(cs, accepts)
    ensures i < |cs| && accepts(cs[i]) && NoneAccepted(cs[..i], accepts)
    decreases |cs|
  {
    if accepts(cs[0]) {
      i := 0;
    } else {
      assert !NoneAccepted(cs[1..], accepts) by {
        var j :| 0 <= j < |cs| && accepts(cs[j]);
        assert j > 0 && cs[1..][j - 1] == cs[j];
      }
      var k := FirstAccepted(cs[1..], accepts);
      i := k + 1;
      assert NoneAccepted(cs[..i], accepts) by {
        forall j | 0 <= j < i ensures !accepts(cs[..i][j]) {
          if j > 0 { assert cs[..i][j] == cs[1..][..k][j - 1]; }
        }
      }
    }
  }

  // ---------------------------------------------------------------------------
  // The candidate table

  /** Every candidate encodes the requested codec, and a hardware candidate is
      present only if hardware acceleration is requested, compiled in and
      reported supported for its family. */
  lemma CandidatesAreUsable(codec: CodecId, useHwaccel: bool, p: Platform, k: nat)
    requires k < |Candidates(codec, useHwaccel, p)|
    ensures var b := Candidates(codec, useHwaccel, p)[k];
      CodecOf(b) == codec && Usable(FamilyOf(b), useHwaccel, p)
  {
  }

  /** Conversely, each usable hardware family is tried for H.264 and H.265,
      QSV first. */
  lemma HardwareTriedWhenUsable(codec: CodecId, useHwaccel: bool, p: Platform)
    requires codec == H264 || codec == H265
    ensures var cs := Candidates(codec, useHwaccel, p);
      var qsv := if codec == H264 then AvcQsv else HevcQsv;
      var nv := if codec == H264 then AvcNv else HevcNv;
      (qsv in cs <==> Usable(Qsv, useHwaccel, p)) &&
      (nv in cs <==> Usable(Nv, useHwaccel, p)) &&
      (qsv in cs ==> cs[0] == qsv)
  {
  }

  /** H.264 with acceleration requested and both families available tries
      QSV, then NV, then OpenH264: the first to accept is the result and
      nothing after it is constructed. */
  lemma H264FullChain(p: Platform, accepts: Backend -> bool)
    requires p.supportHwaccels && p.qsvSupported && p.nvSupported
    ensures Candidates(H264, true, p) == [AvcQsv, AvcNv, AvcOpenH264]
    ensures accepts(AvcQsv) ==>
      Dispatch(H264, true, p, accepts) == Some(AvcQsv) && Tried(Candidates(H264, true, p), accepts) == [AvcQsv]
    ensures !accepts(AvcQsv) && accepts(AvcNv) ==>
      Dispatch(H264, true, p, accepts) == Some(AvcNv) && Tried(Candidates(H264, true, p), accepts) == [AvcQsv, AvcNv]
    ensures !accepts(AvcQsv) && !accepts(AvcNv) ==>
      Dispatch(H264, true, p, accepts) == Some(AvcOpenH264) && Tried(Candidates(H264, true, p), accepts) == [AvcQsv, AvcNv, AvcOpenH264]
  {
  }

  /** H.264 always yields an encoder: without a usable hardware family only
      OpenH264 is tried, and when all hardware candidates fail OpenH264 is the
      result whether or not it accepts. */
  lemma H264FallsBackToSoftware(useHwaccel: bool, p: Platform, accepts: Backend -> bool)
    ensures Dispatch(H264, useHwaccel, p, accepts).Some?
    ensures !Usable(Qsv, useHwaccel, p) && !Usable(Nv, useHwaccel, p) ==>
      Candidates(H264, useHwaccel, p) == [AvcOpenH264]
    ensures NoneAccepted(HardwareCandidates(AvcQsv, AvcNv, useHwaccel, p), accepts) ==>
      Dispatch(H264, useHwaccel, p, accepts) == Some(AvcOpenH264)
  {
    var hw := HardwareCandidates(AvcQsv, AvcNv, useHwaccel, p);
    var cs := Candidates(H264, useHwaccel, p);
    if NoneAccepted(hw, accepts) {
      if accepts(AvcOpenH264) {
        assert cs[..|hw|] == hw;
        FirstAcceptedWins(cs, |hw|, None, accepts);
      } else {
        NoneAcceptedGivesLast(cs, None, accepts);
      }
    }
  }

  /** H.265 has no software candidate: the result is null exactly when no
      hardware family is usable. */
  lemma H265NullIff(useHwaccel: bool, p: Platform, accepts: Backend -> bool)
    ensures Dispatch(H265, useHwaccel, p, accepts).None? <==>
      !(useHwaccel && p.supportHwaccels && (p.qsvSupported || p.nvSupported))
    ensures forall k :: 0 <= k < |Candidates(H265, useHwaccel, p)| ==>
      FamilyOf(Candidates(H265, useHwaccel, p)[k]) != Software
  {
  }

  /** The software backend of the single-candidate codecs. */
  function SoleBackend(codec: CodecId): Option<Backend>
  {
    match codec
    case Vp8 => Some(Vp8Encoder)
    case Jpeg => Some(JpegEncoder)
    case Png => Some(PngEncoder)
    case Aac => Some(AacEncoder)
    case Opus => Some(FfOpusEncoder)
    case _ => None
  }

  /** VP8, JPEG, PNG, AAC and Opus try exactly one backend, which is the
      result even when its Configure fails; Opus never selects the legacy
      libopus encoder. */
  lemma SingleCandidateCodecs(codec: CodecId, useHwaccel: bool, p: Platform, accepts: Backend -> bool)
    requires SoleBackend(codec).Some?
    ensures Candidates(codec, useHwaccel, p) == [SoleBackend(codec).value]
    ensures Tried(Candidates(codec, useHwaccel, p), accepts) == [SoleBackend(codec).value]
    ensures Dispatch(codec, useHwaccel, p, accepts) == SoleBackend(codec)
    ensures Dispatch(codec, useHwaccel, p, accepts) != Some(OpusEncoder)
  {
  }

  /** Create returns null exactly when it constructs no candidate: for an
      unknown codec id, or for H.265 without a usable hardware family. */
  lemma NullIffNothingConstructed(codec: CodecId, useHwaccel: bool, p: Platform, accepts: Backend -> bool)
    ensures Dispatch(codec, useHwaccel, p, accepts).None? <==> Tried(Candidates(codec, useHwaccel, p), accepts) == []
    ensures Dispatch(codec, useHwaccel, p, accepts).None? <==>
      codec.Other? || (codec == H265 && !Usable(Qsv, useHwaccel, p) && !Usable(Nv, useHwaccel, p))
  {
  }

  /** Whatever backend is returned encodes the requested codec. */
  lemma DispatchMatchesCodec(codec: CodecId, useHwaccel: bool, p: Platform, accepts: Backend -> bool)
    ensures var r := Dispatch(codec, useHwaccel, p, accepts);
      r.Some? ==> CodecOf(r.value) == codec && Usable(FamilyOf(r.value), useHwaccel, p)
  {
  }
}
