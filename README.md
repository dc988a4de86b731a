# TranscodeEncoder: encoder dispatch and instance state

This project models the encoder layer of OvenMediaEngine's transcoder, from
`src/projects/transcoder/transcoder_encoder.cpp`. The model has two parts.

- **Dispatch** (`encoder_dispatch.dfy`, module `EncoderDispatch`). This is how
  `TranscodeEncoder::Create` picks a concrete encoder class. Each codec has a
  fixed, ordered candidate list (`Candidates`):
  - H.264: QSV, then NV, then OpenH264.
  - H.265: QSV, then NV, with no software candidate.
  - VP8, JPEG, PNG and AAC: one encoder each.
  - Opus: FFOPUS, because `USE_LEGACY_LIBOPUS` is false.
  - Any other codec id: no candidate.

  A hardware candidate is on the list only when the track asks for hardware
  acceleration, the build has `SUPPORT_HWACCELS`, and the GPU singleton reports
  that family supported. These three inputs are the `Platform` record and the
  track's flag. The outcome of each concrete class's `Configure` is an
  uninterpreted predicate `accepts`.

  `SelectFrom` mirrors the local `encoder` pointer in `Create`. Each candidate
  overwrites the pointer. The first candidate that accepts ends the trial. A
  failed candidate is never reset to null. `Tried` lists the candidates that
  get constructed.
- **Instance** (`transcode_encoder.dfy`, module `Transcoder`). This part is the
  class `TranscodeEncoder`. Its fields are those the file updates:
  - the bound track (nullable);
  - the input queue's threshold and stopped flag;
  - the encoder id;
  - the completion handler (a `std::function`, which may be empty);
  - the kill flag;
  - whether the worker thread is joinable.

  Two ghost fields record what the instance does to the outside world: how
  many times it joined its thread, and the list of handler invocations. Each
  method ties the new `State()` to a function of the old one (`Configured`,
  `OutputSent`, `Stopped`). Lemmas about those functions state the properties
  of the operations. `Create` is a static method. It runs the trial as a loop
  over the candidate list, and its contract connects it to `Dispatch`.

`wrappers.dfy` holds `Option`, which stands for a nullable pointer.

**A failed candidate is not discarded.** When every constructed candidate
fails, `Create` returns the last one constructed, unconfigured but non-null,
with its id and handler set. This happens because the local `encoder` is never
reset (lines 90-96 and 173-179). For the same reason, H.264, VP8, JPEG, PNG,
AAC and Opus never yield null. The model reproduces this (`SelectIsLastTried`,
`NoneAcceptedGivesLast`, `ResultConfiguredIff`, `SingleCandidateCodecs`). Null
comes back only when no candidate was constructed: an unknown codec id, or
H.265 without a usable hardware family (`NullIffNothingConstructed`).

## Model

| member | source | states |
|---|---|---|
| `EncoderDispatch.SelectFrom` | src/projects/transcoder/transcoder_encoder.cpp:59-179 | the result is null exactly when no candidate is left to try and the pointer held before was null; a non-null result is a candidate or the previously held pointer |
| `EncoderDispatch.HardwareCandidates` | src/projects/transcoder/transcoder_encoder.cpp:68-89 | the hardware prefix holds one QSV and one NV entry per supported family, only when acceleration is requested and compiled in, QSV first and NV last |
| `EncoderDispatch.Candidates` | src/projects/transcoder/transcoder_encoder.cpp:65-171 | at most three candidates; the list is empty exactly for an unknown codec id or H.265 without a usable family; H.264 always ends with OpenH264; every entry but the last is a hardware backend |
| `EncoderDispatch.Dispatch` | src/projects/transcoder/transcoder_encoder.cpp:173-179 | the returned pointer is null exactly when the codec has no candidate, and otherwise is one of its candidates |
| `EncoderDispatch.Tried` | src/projects/transcoder/transcoder_encoder.cpp:67-96 | the constructed candidates are a prefix of the list; they are non-empty when the list is; all but the last were rejected; the trial stops early only at an accepting candidate |
| `EncoderDispatch.SelectIsLastTried` | src/projects/transcoder/transcoder_encoder.cpp:90-96 | the returned pointer is the last constructed candidate, or the pointer held before when nothing was constructed |
| `EncoderDispatch.FirstAcceptedWins` | src/projects/transcoder/transcoder_encoder.cpp:67-94 | the first candidate whose Configure succeeds is the result, and no later candidate is constructed |
| `EncoderDispatch.NoneAcceptedGivesLast` | src/projects/transcoder/transcoder_encoder.cpp:90-96 | when every candidate fails, all are constructed and the last one is returned, not null |
| `EncoderDispatch.ResultConfiguredIff` | src/projects/transcoder/transcoder_encoder.cpp:173-179 | with at least one candidate, the result is non-null, and it is a configured encoder exactly when some candidate accepted |
| `EncoderDispatch.CandidatesAreUsable` | src/projects/transcoder/transcoder_encoder.cpp:65-171 | every candidate encodes the track's codec; a QSV or NV candidate appears only when acceleration is requested, compiled in and reported supported for that family |
| `EncoderDispatch.HardwareTriedWhenUsable` | src/projects/transcoder/transcoder_encoder.cpp:69-118 | for H.264 and H.265, the QSV and NV candidates are present exactly when that family is usable, and QSV comes first |
| `EncoderDispatch.H264FullChain` | src/projects/transcoder/transcoder_encoder.cpp:67-94 | with both families usable, H.264 tries QSV, NV, OpenH264 in that order; in each outcome it says which backend is returned and exactly which were constructed |
| `EncoderDispatch.H264FallsBackToSoftware` | src/projects/transcoder/transcoder_encoder.cpp:88-96 | H.264 never yields null; without a usable family only OpenH264 is tried; when all hardware candidates fail, OpenH264 is returned |
| `EncoderDispatch.H265NullIff` | src/projects/transcoder/transcoder_encoder.cpp:97-120 | H.265 yields null exactly when acceleration is off, not compiled in, or neither family is supported; it has no software candidate |
| `EncoderDispatch.SingleCandidateCodecs` | src/projects/transcoder/transcoder_encoder.cpp:121-167 | VP8, JPEG, PNG, AAC and Opus each construct exactly one encoder, which is returned whether or not it configures; Opus gets FFOPUS, never the legacy libopus encoder |
| `EncoderDispatch.NullIffNothingConstructed` | src/projects/transcoder/transcoder_encoder.cpp:168-179 | the result is null exactly when nothing was constructed, which is exactly an unknown codec id or H.265 without a usable hardware family |
| `EncoderDispatch.DispatchMatchesCodec` | src/projects/transcoder/transcoder_encoder.cpp:65-171 | a returned encoder encodes the requested codec, and it is hardware only if its family is usable |
| `Transcoder.Configured` | src/projects/transcoder/transcoder_encoder.cpp:192-200 | the track becomes the argument and the queue threshold MAX_QUEUE_SIZE; every other field is unchanged |
| `Transcoder.OutputSent` | src/projects/transcoder/transcoder_encoder.cpp:212-218 | the invocation list grows by exactly one entry, the handler with the encoder id and the packet, when a handler is set, and by none otherwise; nothing else changes |
| `Transcoder.Stopped` | src/projects/transcoder/transcoder_encoder.cpp:220-231 | kill flag and queue stop set, thread not joinable, one join added exactly when the thread was joinable; nothing else changes |
| `Transcoder.ConfigureSetsTrackAndThreshold` | src/projects/transcoder/transcoder_encoder.cpp:192-200 | Configure stores the track, null or not, sets the queue threshold to 120 and changes nothing else; configuring twice with the same track is the same as once |
| `Transcoder.StopIdempotent` | src/projects/transcoder/transcoder_encoder.cpp:220-231 | any number n >= 1 of Stop calls ends in the state of a single call; at most one join happens, and afterwards the kill flag and the queue's stopped flag are set and the thread is not joinable |
| `Transcoder.OutputsKeepState` | src/projects/transcoder/transcoder_encoder.cpp:212-218 | sending packets out changes only the list of handler invocations, and nothing at all when no handler is set |
| `Transcoder.OutputsDeliveredInOrder` | src/projects/transcoder/transcoder_encoder.cpp:212-218 | with a handler set, each packet sent reaches it exactly once, in order, together with the encoder id |
| `Transcoder.TranscodeEncoder.constructor` | src/projects/transcoder/transcoder_encoder.cpp:30-35 | a new instance of a given concrete class has no track (so `GetRefTrack` is null), no handler, no joinable thread, and neither kill flag nor queue stop set |
| `Transcoder.TranscodeEncoder.Configure` | src/projects/transcoder/transcoder_encoder.cpp:192-200 | the new state is `Configured(old state, t)`; returns true iff the track is non-null; afterwards `GetRefTrack` returns `t` and, for a non-null `t`, `GetTimebase` returns its timebase |
| `Transcoder.TranscodeEncoder.ConfigureBackend` | src/projects/transcoder/transcoder_encoder.cpp:74 | the concrete class's Configure: the base state change, and success iff the track is non-null and the backend accepts |
| `Transcoder.TranscodeEncoder.SetEncoderId` | src/projects/transcoder/transcoder_encoder.cpp:187-190 | only the encoder id changes, to the argument |
| `Transcoder.TranscodeEncoder.SetOnCompleteHandler` | src/projects/transcoder/transcoder_encoder.cpp:177 | only the handler changes, to the argument |
| `Transcoder.TranscodeEncoder.SendOutputBuffer` | src/projects/transcoder/transcoder_encoder.cpp:212-218 | with a handler set, one invocation with the encoder id and the packet is recorded; without one, nothing changes |
| `Transcoder.TranscodeEncoder.Stop` | src/projects/transcoder/transcoder_encoder.cpp:220-231 | kill flag and queue stop set; the thread is joined once if joinable and is not joinable afterwards |
| `Transcoder.TranscodeEncoder.GetTimebase` | src/projects/transcoder/transcoder_encoder.cpp:182-185 | requires a bound track, since the source dereferences it; what it returns after Configure is stated by the Configure row's `GetTimebase` clause |
| `Transcoder.TranscodeEncoder.GetRefTrack` | src/projects/transcoder/transcoder_encoder.cpp:202-205 | null on a new instance (constructor row) and the argument of the last Configure (Configure row) |
| `Transcoder.TranscodeEncoder.Create` | src/projects/transcoder/transcoder_encoder.cpp:57-180 | the constructed candidates are `Tried` of the codec's list; the result is null exactly when `Dispatch` is; otherwise it is a fresh instance of the `Dispatch` backend, bound to the track with threshold 120, and carrying the given id and handler |

## Left out

- The libav allocations in the constructor and their release in the destructor (lines 30-55) are left out. They are foreign calls. The destructor's call to Stop is covered by Stop itself.
- The input queue is reduced to its threshold and its stopped flag. Its class is declared outside this file. Blocking, backpressure, FIFO order and wake-on-stop are cross-thread behaviour. `SendBuffer` (lines 207-210) is an opaque enqueue and is not modelled.
- The queue alias string built with `avcodec_get_name` (line 196) and all logging are left out. They are diagnostics that call into libav.
- Thread creation, the worker loop and the effect of `join` are concurrency and are left out. Starting the thread is declared outside this file, so no modelled operation makes the thread joinable. Stop's contract covers both values of the flag.
- The concrete encoder classes' own `Configure` is not part of this model. Its outcome is the uninterpreted predicate `accepts`.
- Transcoder.TranscodeEncoder.ConfigureBackend: assumes that each override runs the base Configure and changes no other field: it neither raises the kill flag, stops the queue, sets the id or handler, nor starts the worker thread. The overrides are not part of this model. Create's promise that the returned instance has no kill flag, no queue stop and no joinable thread rests on this.
- Transcoder.OutputsKeepState: assumes the handler, which line 216 calls synchronously, does not call back into the instance (Stop, SetEncoderId, Configure). What a handler itself does is not part of this model.
- The GPU capability singleton is reduced to two fixed booleans. It is treated as giving the same answer every time it is asked during one `Create`.
- Transcoder.TranscodeEncoder.Create: takes a non-null track. The source dereferences `output_track` at line 61, so a null track is not a case it handles.
- Transcoder.TranscodeEncoder.Create: models the `OV_ASSERT` of the default branch (line 169) as falling through to a null result, as a build without assertions does. An assertion-enabled build would abort there.
- Transcoder.TranscodeEncoder.constructor: assumes a new instance starts with the kill flag false, the queue not stopped, no track, no handler and no joinable thread (the defaults of the member declarations, of `std::shared_ptr`, `std::function` and `std::thread`, and of the queue class). The declarations and the queue class are not part of this model.
- Transcoder.TranscodeEncoder.constructor: promises nothing about the initial encoder id and queue threshold. Their initial values are set in the class declaration, which is not part of this model.
- Transcoder.TranscodeEncoder.GetRefTrack: returns the track by value. The source returns a reference to the field, through which a caller could rebind the track. That aliasing is not modelled.
