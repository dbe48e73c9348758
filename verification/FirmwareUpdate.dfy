/**
 The firmware transaction: validate, take the maintenance lease, begin, stream
 the image in chunks, finish, give the lease back. What the file, the lease
 provider and the device answer are inputs; every call to them is recorded.
 */
module FirmwareUpdate {
  import opened Wrappers

  /** Sequence numbers are unsigned 32-bit integers. */
  const SEQUENCE_WIDTH: nat := 0x1_0000_0000

  datatype Request = Request(device: string, filePath: string, fileId: string, preferredChunkSize: nat, timeout: int)

  datatype FileRead = Unreadable | SizeUnknown | TooLarge | Contents(image: seq<nat>)

  /** The device's answers; a call that throws counts as one that did not succeed. */
  datatype BeginReply = BeginFails | Begun(session: string, stream: nat, chunkSize: nat)

  datatype FinishReply = FinishFails | FinishRejected | FinishAccepted

  datatype Replies = Replies(begin: BeginReply, chunkSucceeds: nat -> bool, finish: FinishReply)

  datatype Chunk = Chunk(session: string, stream: nat, sequence: nat, cursor: nat, data: seq<nat>)

  datatype Event =
    | Acquired(device: string)
    | BeginCall(size: nat)
    | ChunkCall(chunk: Chunk)
    | FinishCall(session: string)
    | Released(device: string)

  datatype Code =
    | Success | Busy | InvalidArgument | FileReadFailed | BeginFailed | TransferFailed | FinishFailed | Rejected

  datatype Result = Result(code: Code, bytes: nat, chunks: nat)

  // ------------------------------------------------------------------ transfers

  function Min(a: nat, b: nat): nat {
    if a < b then a else b
  }

  /** The data of the chunks, one after the other. */
  function Joined(chunks: seq<Chunk>): seq<nat> {
    if chunks == [] then [] else Joined(chunks[..|chunks| - 1]) + chunks[|chunks| - 1].data
  }

  /** Each chunk carries its index, the number of bytes before it, and the bytes that come next. */
  ghost predicate Contiguous(chunks: seq<Chunk>, image: seq<nat>) {
    && (forall i | 0 <= i < |chunks| ::
          && chunks[i].sequence == i % SEQUENCE_WIDTH
          && chunks[i].cursor == |Joined(chunks[..i])|
          && chunks[i].data != [])
    && Joined(chunks) <= image
  }

  lemma ContiguousExtends(chunks: seq<Chunk>, image: seq<nat>, chunk: Chunk)
    requires Contiguous(chunks, image) && chunk.sequence == |chunks| % SEQUENCE_WIDTH
    requires chunk.cursor == |Joined(chunks)| && chunk.data != []
    requires chunk.cursor + |chunk.data| <= |image| && chunk.data == image[chunk.cursor..chunk.cursor + |chunk.data|]
    ensures Contiguous(chunks + [chunk], image) && |Joined(chunks + [chunk])| == chunk.cursor + |chunk.data|
  {
    var more := chunks + [chunk];
    assert more[..|chunks|] == chunks;
    forall i | 0 <= i < |chunks| ensures more[i].cursor == |Joined(more[..i])| {
      assert more[..i] == chunks[..i];
    }
    assert Joined(more) == image[..chunk.cursor + |chunk.data|];
  }

  lemma NoChunks(image: seq<nat>)
    ensures Contiguous([], image) && Joined([]) == []
  {
  }

  lemma WholeImage(chunks: seq<Chunk>, image: seq<nat>)
    requires Contiguous(chunks, image) && |Joined(chunks)| == |image|
    ensures Joined(chunks) == image
  {
  }

  lemma NextSequence(n: nat)
    ensures (n % SEQUENCE_WIDTH + 1) % SEQUENCE_WIDTH == (n + 1) % SEQUENCE_WIDTH
  {
  }

  /** Sends the image; `sent` are the chunks offered to the device, the last of which may have failed. */
  method Transfer(image: seq<nat>, session: string, stream: nat, chunkSize: nat, succeeds: nat -> bool)
    returns (sent: seq<Chunk>, chunks: nat, complete: bool)
    requires chunkSize > 0
    ensures Contiguous(sent, image)
    ensures forall i | 0 <= i < |sent| :: sent[i].session == session && sent[i].stream == stream
    ensures forall i | 0 <= i < |sent| ::
              |sent[i].data| <= chunkSize && (i < |sent| - 1 ==> |sent[i].data| == chunkSize)
    ensures complete <==> forall i | 0 <= i < |sent| :: succeeds(i)
    ensures complete ==> Joined(sent) == image && chunks == |sent| % SEQUENCE_WIDTH
    ensures !complete ==> sent != [] && !succeeds(|sent| - 1) && chunks == (|sent| - 1) % SEQUENCE_WIDTH
    ensures forall i | 0 <= i < |sent| - 1 :: succeeds(i)
  {
    hide Contiguous, Joined;
    sent, chunks := [], 0;
    NoChunks(image);
    var offset := 0;
    while offset < |image|
      invariant Contiguous(sent, image) && |Joined(sent)| == Min(offset, |image|)
      invariant chunks == |sent| % SEQUENCE_WIDTH
      invariant forall i | 0 <= i < |sent| :: succeeds(i) && sent[i].session == session && sent[i].stream == stream
      invariant forall i | 0 <= i < |sent| :: |sent[i].data| <= chunkSize
      invariant offset < |image| ==> forall i | 0 <= i < |sent| :: |sent[i].data| == chunkSize
      invariant forall i | 0 <= i < |sent| - 1 :: |sent[i].data| == chunkSize
      decreases |image| - offset
    {
      var count := Min(chunkSize, |image| - offset);
      var chunk := Chunk(session, stream, chunks, offset, image[offset..offset + count]);
      ContiguousExtends(sent, image, chunk);
      sent := sent + [chunk];
      if !succeeds(|sent| - 1) {
        return sent, chunks, false;
      }
      NextSequence(|sent| - 1);
      chunks := (chunks + 1) % SEQUENCE_WIDTH;
      offset := offset + chunkSize;
    }
    WholeImage(sent, image);
    return sent, chunks, true;
  }

  // ---------------------------------------------------------------- transaction

  function ChunkCalls(chunks: seq<Chunk>): seq<Event> {
    seq(|chunks|, i requires 0 <= i < |chunks| => ChunkCall(chunks[i]))
  }

  /** How far a transaction got under the lease. */
  datatype Course = NotBegun | Sent(chunks: seq<Chunk>, finished: bool)

  /** The calls of a transaction, in order. */
  function Trace(course: Course, image: seq<nat>, session: string): seq<Event> {
    [BeginCall(|image|)] +
    match course
    case NotBegun => []
    case Sent(chunks, finished) => ChunkCalls(chunks) + (if finished then [FinishCall(session)] else [])
  }

  /** The result code says how far the transaction got. */
  predicate CodeFits(code: Code, course: Course, replies: Replies) {
    match code
    case BeginFailed => course.NotBegun?
    case TransferFailed =>
      && course.Sent? && !course.finished
      && course.chunks != [] && !replies.chunkSucceeds(|course.chunks| - 1)
    case FinishFailed => course.Sent? && course.finished && replies.finish.FinishFails?
    case Rejected => course.Sent? && course.finished && replies.finish.FinishRejected?
    case Success => course.Sent? && course.finished && replies.finish.FinishAccepted?
    case _ => false
  }

  /** How many chunks the device took: all offered ones, except the one a transfer failed at. */
  function Acknowledged(course: Course, code: Code): nat {
    if course.NotBegun? || course.chunks == [] then 0
    else |course.chunks| - if code.TransferFailed? then 1 else 0
  }

  /** Everything between taking and giving back the lease. */
  method RunUnderLease(image: seq<nat>, preferredChunkSize: nat, replies: Replies)
    returns (result: Result, course: Course, session: string, calls: seq<Event>)
    requires image != [] && preferredChunkSize > 0
    ensures calls == Trace(course, image, session) && CodeFits(result.code, course, replies)
    ensures course.Sent? ==> Contiguous(course.chunks, image)
    ensures course.Sent? && course.finished ==> Joined(course.chunks) == image && session != ""
    ensures course.Sent? ==> forall i | 0 <= i < |course.chunks| :: course.chunks[i].session == session
    ensures course.NotBegun? <==> replies.begin.BeginFails? || replies.begin.session == ""
    ensures result.bytes == |image| && result.chunks == Acknowledged(course, result.code) % SEQUENCE_WIDTH
  {
    calls := [BeginCall(|image|)];
    session := "";
    if replies.begin.BeginFails? || replies.begin.session == "" {
      return Result(BeginFailed, |image|, 0), NotBegun, session, calls;
    }
    session := replies.begin.session;
    var chunkSize := if replies.begin.chunkSize == 0 then preferredChunkSize else replies.begin.chunkSize;
    var sent, chunks, complete := Transfer(image, session, replies.begin.stream, chunkSize, replies.chunkSucceeds);
    calls := calls + ChunkCalls(sent);
    if !complete {
      return Result(TransferFailed, |image|, chunks), Sent(sent, false), session, calls;
    }
    calls := calls + [FinishCall(session)];
    course := Sent(sent, true);
    var code := match replies.finish
      case FinishFails => FinishFailed
      case FinishRejected => Rejected
      case FinishAccepted => Success;
    result := Result(code, |image|, chunks);
  }

  predicate WellFormed(request: Request) {
    request.filePath != "" && request.device != "" && request.fileId != "" && request.preferredChunkSize > 0
    && request.timeout >= 0
  }

  /**
   What the calls of a granted transaction look like: all of them between the
   one acquisition and the one release; the chunks contiguous from the start of
   the image; finish only after the whole image.
   */
  ghost predicate Follows(trace: seq<Event>, request: Request, image: seq<nat>, course: Course, session: string,
                          code: Code, replies: Replies)
  {
    && trace == [Acquired(request.device)] + Trace(course, image, session) + [Released(request.device)]
    && CodeFits(code, course, replies)
    && (course.Sent? ==> Contiguous(course.chunks, image))
    && (course.Sent? && course.finished ==> Joined(course.chunks) == image)
  }

  // --------------------------------------------------------------------- counts

  datatype Kind = Acquisition | Begin | Transmission | Finish | Release

  function KindOf(event: Event): Kind {
    match event
    case Acquired(_) => Acquisition
    case BeginCall(_) => Begin
    case ChunkCall(_) => Transmission
    case FinishCall(_) => Finish
    case Released(_) => Release
  }

  function Count(events: seq<Event>, kind: Kind): nat {
    if events == [] then 0
    else Count(events[..|events| - 1], kind) + if KindOf(events[|events| - 1]) == kind then 1 else 0
  }

  lemma {:induction false} CountConcat(a: seq<Event>, b: seq<Event>, kind: Kind)
    ensures Count(a + b, kind) == Count(a, kind) + Count(b, kind)
  {
    if b == [] {
      assert a + b == a;
    } else {
      assert (a + b)[..|a + b| - 1] == a + b[..|b| - 1];
      CountConcat(a, b[..|b| - 1], kind);
    }
  }

  lemma CountOne(event: Event, kind: Kind)
    ensures Count([event], kind) == if KindOf(event) == kind then 1 else 0
  {
    assert [event][..0] == [];
  }

  lemma {:induction false} CountChunks(chunks: seq<Chunk>, kind: Kind)
    ensures Count(ChunkCalls(chunks), kind) == if kind.Transmission? then |chunks| else 0
  {
    if chunks != [] {
      var calls := ChunkCalls(chunks);
      assert calls[..|calls| - 1] == ChunkCalls(chunks[..|chunks| - 1]);
      CountChunks(chunks[..|chunks| - 1], kind);
    }
  }

  lemma CountTrace(course: Course, image: seq<nat>, session: string, kind: Kind)
    ensures Count(Trace(course, image, session), kind) ==
            match kind
            case Acquisition => 0
            case Begin => 1
            case Transmission => if course.Sent? then |course.chunks| else 0
            case Finish => if course.Sent? && course.finished then 1 else 0
            case Release => 0
  {
    var begin := [BeginCall(|image|)];
    CountOne(BeginCall(|image|), kind);
    match course
    case NotBegun => assert Trace(course, image, session) == begin;
    case Sent(chunks, finished) =>
      var finish := if finished then [FinishCall(session)] else [];
      CountConcat(begin, ChunkCalls(chunks) + finish, kind);
      CountConcat(ChunkCalls(chunks), finish, kind);
      CountChunks(chunks, kind);
      CountOne(FinishCall(session), kind);
  }

  /** The calls of a granted transaction, counted. */
  lemma CallsCounted(trace: seq<Event>, request: Request, image: seq<nat>, course: Course, session: string,
                     code: Code, replies: Replies)
    requires Follows(trace, request, image, course, session, code, replies)
    ensures Count(trace, Acquisition) == Count(trace, Begin) == Count(trace, Release) == 1
    ensures Count(trace, Transmission) == Acknowledged(course, code) + if code.TransferFailed? then 1 else 0
    ensures Count(trace, Finish) == if code in {FinishFailed, Rejected, Success} then 1 else 0
  {
    hide Count, Contiguous, Joined, Trace;
    var acquired, calls := [Acquired(request.device)], Trace(course, image, session);
    forall kind: Kind
      ensures Count(trace, kind) == Count(calls, kind) + if kind.Acquisition? || kind.Release? then 1 else 0
    {
      CountConcat(acquired + calls, [Released(request.device)], kind);
      CountConcat(acquired, calls, kind);
      CountOne(Acquired(request.device), kind);
      CountOne(Released(request.device), kind);
    }
    forall kind: Kind { CountTrace(course, image, session, kind); }
  }

  /**
   The lease is a local of the transaction: it is given back on every way out.
   Once it is granted there is one begin, at most one finish, and one release,
   which is the last call; the result counts the chunks the device took.
   */
  method Run(request: Request, file: FileRead, granted: bool, replies: Replies)
    returns (result: Result, trace: seq<Event>)
    ensures result.code == InvalidArgument <==> !WellFormed(request) || file == Contents([])
    ensures result.code == FileReadFailed <==> WellFormed(request) && !file.Contents?
    ensures result.code == Busy <==> WellFormed(request) && file.Contents? && file.image != [] && !granted
    ensures result.bytes == if WellFormed(request) && file.Contents? then |file.image| else 0
    ensures result.code in {InvalidArgument, FileReadFailed, Busy} ==> trace == [] && result.chunks == 0
    ensures result.code !in {InvalidArgument, FileReadFailed, Busy} ==>
              && file.Contents?
              && (exists course, session ::
                    Follows(trace, request, file.image, course, session, result.code, replies))
              && trace[0] == Acquired(request.device) && trace[|trace| - 1] == Released(request.device)
              && Count(trace, Acquisition) == Count(trace, Begin) == Count(trace, Release) == 1
              && Count(trace, Finish) == (if result.code in {FinishFailed, Rejected, Success} then 1 else 0)
              && var failed := if result.code.TransferFailed? then 1 else 0;
                 && Count(trace, Transmission) >= failed
                 && result.chunks == (Count(trace, Transmission) - failed) % SEQUENCE_WIDTH
  {
    hide Count, Contiguous, Joined;
    if !WellFormed(request) {
      return Result(InvalidArgument, 0, 0), [];
    }
    match file
    case Unreadable | SizeUnknown | TooLarge => return Result(FileReadFailed, 0, 0), [];
    case Contents(image) =>
      if image == [] {
        return Result(InvalidArgument, 0, 0), [];
      }
      if !granted {
        return Result(Busy, |image|, 0), [];
      }
      var lease := new MaintenanceLease(request.device);
      var course, session, calls;
      result, course, session, calls := RunUnderLease(image, request.preferredChunkSize, replies);
      lease.Destroy();
      trace := [Acquired(request.device)] + calls + seq(lease.releases, _ => Released(request.device));
      assert seq(lease.releases, _ => Released(request.device)) == [Released(request.device)];
      assert Follows(trace, request, image, course, session, result.code, replies);
      CallsCounted(trace, request, image, course, session, result.code, replies);
  }

  // ---------------------------------------------------------------------- lease

  /** A handle on a maintenance lease; moving from it leaves it empty. */
  class MaintenanceLease {
    const device: string
    var held: bool
    var releases: nat

    constructor (device: string)
      ensures held && releases == 0 && this.device == device
    {
      this.device := device;
      held, releases := true, 0;
    }

    /** Going out of scope gives the lease back, if it is still held. */
    method Destroy()
      modifies this
      ensures !held && releases == old(releases) + (if old(held) then 1 else 0)
    {
      if held {
        releases := releases + 1;
        held := false;
      }
    }
  }
}
