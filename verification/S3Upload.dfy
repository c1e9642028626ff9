/** The streaming S3 uploader of storage/s3.go over an abstract bucket and an arbitrary reader. */
module S3Upload {
  import opened ByteText
  import opened Names
  import opened Numbers
  import Paths

  const PART_SIZE: nat := 0x80_0000         // 8 MiB
  const MAX_PARTS: nat := 10000
  const MAX_PART_SIZE: nat := 0x1_4000_0000 // 5 GiB
  const MIN_PART_SIZE: nat := 0x50_0000     // 5 MiB, S3's minimum for all parts but the last

  /** Go's division and remainder by a positive divisor truncate toward zero. */
  function TruncDiv(a: int, b: int): int
    requires b > 0
  {
    if a >= 0 then a / b else -(-a / b)
  }

  function TruncMod(a: int, b: int): int
    requires b > 0
  {
    a - TruncDiv(a, b) * b
  }

  function PartSizeFor(size: int): (p: nat)
    ensures PART_SIZE <= p <= MAX_PART_SIZE
  {
    Min(MAX_PART_SIZE, Max(PART_SIZE, TruncDiv(size, MAX_PARTS) + Min(TruncMod(size, MAX_PARTS), 1)))
  }

  /**
   * For every size S3 can take, up to 10000 parts of 5 GiB, the part size is the smallest one from 8 MiB to 5 GiB that
   * fits it into 10000 parts.
   */
  lemma PartSizeIsLeast(size: int)
    requires 0 <= size <= 10_000 * 5 * 1024 * 1024 * 1024
    ensures size <= 10_000 * PartSizeFor(size)
    ensures 8 * 1024 * 1024 <= PartSizeFor(size) <= 5 * 1024 * 1024 * 1024
    ensures forall q :: 8 * 1024 * 1024 <= q <= 5 * 1024 * 1024 * 1024 && size <= 10_000 * q ==> PartSizeFor(size) <= q
  {
    var d, m := size / MAX_PARTS, size % MAX_PARTS;
    assert size == d * MAX_PARTS + m && TruncMod(size, MAX_PARTS) == m;
  }

  /** How a read ended: more may come, the stream is over, or the stream broke. */
  datatype End = More | Eof | Broken

  /** How much a reader would hand out on a read, and whether it reports the stream's end along with its last bytes. */
  datatype Choice = Choice(take: nat, over: bool)

  datatype Reply = Reply(n: nat, end: End)

  function Ending(fails: bool): End {
    if fails then Broken else Eof
  }

  /** How many bytes a read hands out: none only while the reader may still stall, or has none left. */
  function Handed(avail: nat, room: nat, stalls: nat, choice: Choice): (n: nat)
    requires room > 0
    ensures n <= avail && n <= room && (n == 0 ==> avail == 0 || stalls > 0)
  {
    var n := Min(choice.take, Min(avail, room));
    if n == 0 && avail > 0 && stalls == 0 then 1 else n
  }

  /**
   * What a read with room for `room` bytes gets while `avail` bytes are to come. A reader returns neither data nor an
   * end only `stalls` more times, so in the end it makes progress.
   */
  function ReplyTo(avail: nat, room: nat, fails: bool, stalls: nat, choice: Choice): (r: Reply)
    requires room > 0
    ensures r.n <= avail && r.n <= room
    ensures r.end != More ==> r.n == avail && r.end == Ending(fails)
    ensures r.end == More ==> r.n > 0 || stalls > 0
  {
    var n := Handed(avail, room, stalls, choice);
    Reply(n, if n == avail && (choice.over || (n == 0 && stalls == 0)) then Ending(fails) else More)
  }

  function StallsAfter(stalls: nat, r: Reply): nat
    requires r.n == 0 && r.end == More ==> stalls > 0
  {
    if r.n == 0 && r.end == More then stalls - 1 else stalls
  }

  /**
   * The upload's body teed into the hasher: what is still to come, every byte handed out so far, and an arbitrary
   * schedule of what the reader does on each read.
   */
  class Body {
    var rest: Text
    const fails: bool
    var stalls: nat
    var hashed: Text
    const schedule: nat -> Choice
    var turn: nat

    constructor (stream: Text, fails: bool, stalls: nat, schedule: nat -> Choice)
      ensures rest == stream && this.fails == fails && this.stalls == stalls && hashed == []
      ensures this.schedule == schedule && turn == 0
    {
      rest, this.fails, this.stalls, hashed, this.schedule, turn := stream, fails, stalls, [], schedule, 0;
    }

    method Read(buf: array<byte>, lo: nat, hi: nat) returns (n: nat, end: End)
      requires lo < hi <= buf.Length
      modifies this, buf
      ensures Reply(n, end) == ReplyTo(|old(rest)|, hi - lo, fails, old(stalls), schedule(old(turn)))
      ensures stalls == StallsAfter(old(stalls), Reply(n, end)) && turn == old(turn) + 1
      ensures rest == old(rest)[n..] && hashed == old(hashed) + old(rest)[..n]
      ensures buf[..lo + n] == old(buf[..lo]) + old(rest)[..n]
    {
      var reply := ReplyTo(|rest|, hi - lo, fails, stalls, schedule(turn));
      n, end := reply.n, reply.end;
      stalls, turn := StallsAfter(stalls, reply), turn + 1;
      var chunk := rest[..n];
      forall i | 0 <= i < n {
        buf[lo + i] := chunk[i];
      }
      rest, hashed := rest[n..], hashed + chunk;
    }
  }

  /** What reading until the buffer is full or a read reports an end comes to. */
  ghost function FillReply(avail: nat, room: nat, fails: bool, stalls: nat, schedule: nat -> Choice, turn: nat): Reply
    decreases avail + stalls
  {
    if room == 0 then Reply(0, More)
    else
      var r := ReplyTo(avail, room, fails, stalls, schedule(turn));
      if r.end != More then r
      else After(r.n, FillReply(avail - r.n, room - r.n, fails, StallsAfter(stalls, r), schedule, turn + 1))
  }

  function After(n: nat, r: Reply): Reply {
    Reply(n + r.n, r.end)
  }

  /** What fill gets from this body. */
  ghost function FillFrom(body: Body, room: nat): Reply
    reads body
  {
    FillReply(|body.rest|, room, body.fails, body.stalls, body.schedule, body.turn)
  }

  /** fill: the next bytes of the stream, and the end that the last of its reads reported. */
  method Fill(body: Body, buf: array<byte>) returns (n: nat, end: End)
    modifies body, buf
    ensures n <= buf.Length && n <= |old(body.rest)|
    ensures buf[..n] == old(body.rest)[..n] && body.rest == old(body.rest)[n..]
    ensures body.hashed == old(body.hashed) + old(body.rest)[..n]
    ensures end == More ==> n == buf.Length
    ensures end != More ==> body.rest == [] && end == Ending(body.fails)
    ensures Reply(n, end) == old(FillFrom(body, buf.Length))
  {
    n, end := 0, More;
    ghost var stream, hashed, whole := body.rest, body.hashed, FillFrom(body, buf.Length);
    while n < buf.Length && end == More
      invariant n <= buf.Length && HasRead(stream, hashed, n, buf[..n], body.rest, body.hashed)
      invariant end != More ==> body.rest == [] && end == Ending(body.fails)
      invariant whole == if end == More then After(n, FillFrom(body, buf.Length - n)) else Reply(n, end)
      decreases |body.rest| + body.stalls, end == More
    {
      n, end := ReadMore(body, buf, n, buf.Length, stream, hashed);
    }
  }

  /** The first n bytes of the stream are in the buffer and hashed, and the rest is still to come. */
  ghost predicate HasRead(stream: Text, hashed: Text, n: nat, buffer: Text, rest: Text, now: Text) {
    n <= |stream| && buffer == stream[..n] && rest == stream[n..] && now == hashed + stream[..n]
  }

  lemma ReadOn(stream: Text, hashed: Text, n: nat, k: nat)
    requires n + k <= |stream|
    ensures stream[..n] + stream[n..][..k] == stream[..n + k] && stream[n..][k..] == stream[n + k..]
    ensures hashed + stream[..n] + stream[n..][..k] == hashed + stream[..n + k]
  {
    assert stream[..n] + stream[n..][..k] == stream[..n + k];
  }

  /** One read of fill's and ReadFull's loops. */
  method ReadMore(body: Body, buf: array<byte>, n: nat, want: nat, ghost stream: Text, ghost hashed: Text)
    returns (n': nat, end: End)
    requires n < want <= buf.Length && HasRead(stream, hashed, n, buf[..n], body.rest, body.hashed)
    modifies body, buf
    ensures n <= n' <= want && HasRead(stream, hashed, n', buf[..n'], body.rest, body.hashed)
    ensures end != More ==> body.rest == [] && end == Ending(body.fails)
    ensures |body.rest| + body.stalls <= |old(body.rest)| + old(body.stalls)
    ensures end == More ==> |body.rest| + body.stalls < |old(body.rest)| + old(body.stalls)
    ensures old(FillFrom(body, want - n)) ==
            if end == More then After(n' - n, FillFrom(body, want - n')) else Reply(n' - n, end)
  {
    var read;
    read, end := body.Read(buf, n, want);
    n' := n + read;
    ReadOn(stream, hashed, n, read);
  }

  /** What the documentation of fill says: it reports an end only when the stream ended before the buffer was full. */
  ghost predicate EndsOnlyEarly(r: Reply, room: nat) {
    r.end != More ==> r.n < room
  }

  /** The read that hands out the reader's last byte. */
  ghost function LastByteTurn(avail: nat, stalls: nat, schedule: nat -> Choice, turn: nat): nat
    requires avail > 0
    decreases avail + stalls
  {
    var n := Handed(avail, avail, stalls, schedule(turn));
    if n == avail then turn else LastByteTurn(avail - n, if n == 0 then stalls - 1 else stalls, schedule, turn + 1)
  }

  /** The reader reports its end along with its last byte. */
  ghost predicate EndsWithLastByte(avail: nat, stalls: nat, schedule: nat -> Choice, turn: nat) {
    avail > 0 && schedule(LastByteTurn(avail, stalls, schedule, turn)).over
  }

  /** An end is reported only with the last byte of the stream. */
  lemma {:induction false} EndMeansAll(avail: nat, room: nat, fails: bool, stalls: nat, schedule: nat -> Choice,
                                       turn: nat)
    ensures var r := FillReply(avail, room, fails, stalls, schedule, turn);
            r.n <= room && (r.end != More ==> r.n == avail)
    decreases avail + stalls
  {
    if room > 0 {
      var r := ReplyTo(avail, room, fails, stalls, schedule(turn));
      if r.end == More {
        EndMeansAll(avail - r.n, room - r.n, fails, StallsAfter(stalls, r), schedule, turn + 1);
      }
    }
  }

  lemma {:induction false} ExactFitEndsIff(avail: nat, fails: bool, stalls: nat, schedule: nat -> Choice, turn: nat)
    ensures FillReply(avail, avail, fails, stalls, schedule, turn).end != More
            <==> EndsWithLastByte(avail, stalls, schedule, turn)
    decreases avail + stalls
  {
    if avail > 0 {
      var r := ReplyTo(avail, avail, fails, stalls, schedule(turn));
      if r.n < avail {
        ExactFitEndsIff(avail - r.n, fails, StallsAfter(stalls, r), schedule, turn + 1);
      }
    }
  }

  /**
   * The code does so except for a reader whose remaining bytes fill the buffer exactly and that reports its end along
   * with the last of them: then fill returns a full buffer together with the end.
   */
  lemma FullBufferEndsIff(avail: nat, room: nat, fails: bool, stalls: nat, schedule: nat -> Choice, turn: nat)
    requires room > 0
    ensures EndsOnlyEarly(FillReply(avail, room, fails, stalls, schedule, turn), room)
            <==> !(avail == room && EndsWithLastByte(avail, stalls, schedule, turn))
  {
    EndMeansAll(avail, room, fails, stalls, schedule, turn);
    ExactFitEndsIff(avail, fails, stalls, schedule, turn);
  }

  /** Such a reader, for a buffer of any size: it hands out all it has, just what fits, together with the end. */
  lemma FullBufferCanEnd(room: nat, fails: bool, stalls: nat, schedule: nat -> Choice, turn: nat)
    requires room > 0 && schedule(turn) == Choice(room, true)
    ensures FillReply(room, room, fails, stalls, schedule, turn) == Reply(room, Ending(fails))
    ensures !EndsOnlyEarly(FillReply(room, room, fails, stalls, schedule, turn), room)
  {}

  /** io.ReadFull: exactly `want` bytes, or failure; an end reported together with the last byte is ignored. */
  method ReadFull(body: Body, buf: array<byte>, want: nat) returns (ok: bool)
    requires want <= buf.Length
    modifies body, buf
    ensures ok <==> want <= |old(body.rest)|
    ensures ok ==> buf[..want] == old(body.rest)[..want] && body.rest == old(body.rest)[want..]
    ensures ok ==> body.hashed == old(body.hashed) + old(body.rest)[..want]
  {
    var n, end := 0, More;
    ghost var stream, hashed := body.rest, body.hashed;
    while n < want && end == More
      invariant n <= want && HasRead(stream, hashed, n, buf[..n], body.rest, body.hashed)
      invariant end != More ==> body.rest == []
      decreases |body.rest| + body.stalls, end == More
    {
      n, end := ReadMore(body, buf, n, want, stream, hashed);
    }
    ok := n == want;
  }

  datatype Upload = Upload(key: string, parts: map<nat, Text>)

  function Assemble(parts: map<nat, Text>, numbers: seq<nat>): Text
    requires forall i :: 0 <= i < |numbers| ==> numbers[i] in parts
  {
    if numbers == [] then []
    else Assemble(parts, numbers[..|numbers| - 1]) + parts[numbers[|numbers| - 1]]
  }

  /** S3's rules for completing an upload: ascending numbers of uploaded parts, all but the last of full size. */
  ghost predicate Completable(parts: map<nat, Text>, numbers: seq<nat>) {
    && numbers != []
    && (forall i :: 0 <= i < |numbers| ==> numbers[i] in parts && 1 <= numbers[i] <= MAX_PARTS)
    && (forall i, j :: 0 <= i < j < |numbers| ==> numbers[i] < numbers[j])
    && (forall i :: 0 <= i < |numbers| - 1 ==> MIN_PART_SIZE <= |parts[numbers[i]]|)
  }

  /**
   * The bucket. Any call but Abort may fail, leaving things as they were and setting `faulted`. What S3 demands of
   * a request is a precondition here, so that the uploader is proved to obey it.
   */
  class Bucket {
    var objects: map<string, Text>
    var uploads: map<nat, Upload>
    var faulted: bool

    constructor ()
      ensures objects == map[] && uploads == map[] && !faulted
    {
      objects, uploads, faulted := map[], map[], false;
    }

    method PutObject(key: string, data: Text) returns (ok: bool)
      requires |data| <= MAX_PART_SIZE
      modifies this
      ensures uploads == old(uploads) && (old(faulted) ==> faulted)
      ensures ok ==> objects == old(objects)[key := data]
      ensures !ok ==> objects == old(objects) && faulted
    {
      ok := *;
      if ok {
        objects := objects[key := data];
      } else {
        faulted := true;
      }
    }

    /** S3 hands out an upload ID that is not in use. */
    method CreateMultipartUpload(key: string, id: nat) returns (ok: bool)
      requires id !in uploads
      modifies this
      ensures objects == old(objects) && (old(faulted) ==> faulted)
      ensures ok ==> uploads == old(uploads)[id := Upload(key, map[])]
      ensures !ok ==> uploads == old(uploads) && faulted
    {
      ok := *;
      if ok {
        uploads := uploads[id := Upload(key, map[])];
      } else {
        faulted := true;
      }
    }

    method UploadPart(id: nat, number: nat, data: Text) returns (ok: bool)
      requires id in uploads && 1 <= number <= MAX_PARTS && 0 < |data| <= MAX_PART_SIZE
      modifies this
      ensures objects == old(objects) && (old(faulted) ==> faulted)
      ensures ok ==> uploads == old(uploads)[id := old(uploads)[id].(parts := old(uploads)[id].parts[number := data])]
      ensures !ok ==> uploads == old(uploads) && faulted
    {
      ok := *;
      if ok {
        uploads := uploads[id := uploads[id].(parts := uploads[id].parts[number := data])];
      } else {
        faulted := true;
      }
    }

    method CompleteMultipartUpload(id: nat, numbers: seq<nat>) returns (ok: bool)
      requires id in uploads && Completable(uploads[id].parts, numbers)
      modifies this
      ensures old(faulted) ==> faulted
      ensures ok ==> uploads == old(uploads) - {id}
      ensures ok ==> objects == old(objects)[old(uploads)[id].key := Assemble(old(uploads)[id].parts, numbers)]
      ensures !ok ==> uploads == old(uploads) && objects == old(objects) && faulted
    {
      ok := *;
      if ok {
        objects := objects[uploads[id].key := Assemble(uploads[id].parts, numbers)];
        uploads := uploads - {id};
      } else {
        faulted := true;
      }
    }

    method AbortMultipartUpload(id: nat)
      modifies this
      ensures objects == old(objects) && faulted == old(faulted) && uploads == old(uploads) - {id}
    {
      uploads := uploads - {id};
    }
  }

  datatype PutResult = Stored | InvalidOID | TooLarge | ReadFailed | StoreFailed | HashMismatch

  /** verifyOID: strings.EqualFold on hexadecimal strings. */
  predicate Verifies(sha: Text -> string, data: Text, oid: string) {
    Lower(sha(data)) == Lower(oid)
  }

  /** The hash verifies when it is the ID, digit by digit, ignoring case. */
  lemma VerifiesMeans(sha: Text -> string, data: Text, oid: string)
    ensures Verifies(sha, data, oid) <==>
              |sha(data)| == |oid| && forall i :: 0 <= i < |oid| ==> SameIgnoringCase(sha(data)[i], oid[i])
  {
    LowerMeans(sha(data), oid);
  }

  /** The bytes a Put is asked to store: the first `size`, or the whole stream when the size is unknown. */
  ghost function Asked(stream: Text, size: int): Text
    requires size <= |stream|
  {
    if size < 0 then stream else stream[..size]
  }

  /** The reader delivers what was asked for. */
  ghost predicate Readable(stream: Text, fails: bool, size: int) {
    if size < 0 then !fails else size <= |stream|
  }

  /** The concatenation of parts 1 to count. */
  ghost function Assemble'(parts: map<nat, Text>, count: nat): Text {
    if count == 0 then [] else Assemble'(parts, count - 1) + if count in parts then parts[count] else []
  }

  lemma {:induction false} AssembleFrame(parts: map<nat, Text>, number: nat, data: Text, count: nat)
    requires count < number
    ensures Assemble'(parts[number := data], count) == Assemble'(parts, count)
  {
    if count > 0 {
      AssembleFrame(parts, number, data, count - 1);
    }
  }

  lemma {:induction false} AssembleInOrder(parts: map<nat, Text>, numbers: seq<nat>)
    requires forall i :: 0 <= i < |numbers| ==> numbers[i] == i + 1 && numbers[i] in parts
    ensures Assemble(parts, numbers) == Assemble'(parts, |numbers|)
  {
    if numbers != [] {
      AssembleInOrder(parts, numbers[..|numbers| - 1]);
    }
  }

  /**
   * The next chunk of the multipart loop, read into the buffer. `ahead` is everything not uploaded yet, `all`
   * everything the reader will ever have handed out.
   */
  method NextChunk(body: Body, buf: array<byte>, size: int, buffered: nat, ghost ahead: Text, ghost all: Text)
    returns (ok: bool, n: nat, left: int)
    requires buffered <= buf.Length && 0 < buf.Length && size != 0 && (buffered > 0 ==> size < 0)
    requires ahead == buf[..buffered] + body.rest && all == body.hashed + body.rest
    modifies body, buf
    ensures ok ==> n <= buf.Length && n <= |ahead| && buf[..n] == ahead[..n] && body.rest == ahead[n..]
    ensures ok ==> all == body.hashed + body.rest
    ensures ok && size > 0 ==> n == Min(buf.Length, size) && left == size
    ensures ok && size < 0 ==> left == size || (left == 0 && body.rest == [] && !body.fails)
    ensures ok && left < 0 ==> n == (if buffered > 0 then buffered else buf.Length)
    ensures !ok ==> if size > 0 then |ahead| < size else body.fails
  {
    ghost var stream, hashed := body.rest, body.hashed;
    left := size;
    if buffered > 0 {
      FrontAndBack(buf[..buffered], stream);
      return true, buffered, left;
    }
    assert ahead == stream;
    if size > 0 {
      n := Min(buf.Length, size);
      ok := ReadFull(body, buf, n);
    } else {
      var end;
      n, end := Fill(body, buf);
      ok := end != Broken;
      if end == Eof {
        left := 0;
      }
    }
    if ok {
      StillAll(hashed, stream, n);
    }
  }

  lemma FrontAndBack(a: Text, b: Text)
    ensures (a + b)[..|a|] == a && (a + b)[|a|..] == b
  {}

  lemma StillAll(hashed: Text, stream: Text, n: nat)
    requires n <= |stream|
    ensures hashed + stream[..n] + stream[n..] == hashed + stream
  {
    assert stream[..n] + stream[n..] == stream;
  }

  /** The multipart loop: parts 1, 2, ... of an open upload until the size or the stream is used up. */
  method UploadParts(bucket: Bucket, id: nat, body: Body, size: int, buf: array<byte>, buffered: nat,
                     ghost ahead: Text, ghost all: Text)
    returns (r: PutResult, numbers: seq<nat>)
    requires id in bucket.uploads && bucket.uploads[id].parts == map[]
    requires MIN_PART_SIZE <= buf.Length <= MAX_PART_SIZE && size != 0
    requires if size < 0 then buffered == buf.Length else buffered == 0 && size <= MAX_PARTS * buf.Length
    requires ahead == buf[..buffered] + body.rest && all == body.hashed + body.rest
    modifies bucket, body, buf
    ensures bucket.objects == old(bucket.objects) && (old(bucket.faulted) ==> bucket.faulted)
    ensures id in bucket.uploads && bucket.uploads - {id} == old(bucket.uploads) - {id}
    ensures bucket.uploads[id].key == old(bucket.uploads[id].key)
    ensures r in {Stored, ReadFailed, TooLarge, StoreFailed}
    ensures r == Stored ==>
              && Readable(ahead, body.fails, size) && Completable(bucket.uploads[id].parts, numbers)
              && (forall i :: 0 <= i < |numbers| ==> numbers[i] == i + 1)
              && PartsSoFar(bucket.uploads[id].parts, |numbers|, buf.Length, Asked(ahead, size))
              && Assemble(bucket.uploads[id].parts, numbers) == Asked(ahead, size)
              && all == body.hashed + body.rest && body.rest == (if size < 0 then [] else ahead[size..])
    ensures r == ReadFailed ==> !Readable(ahead, body.fails, size)
    ensures r == TooLarge ==> size < 0 && |ahead| > MAX_PARTS * buf.Length
    ensures r == StoreFailed ==> bucket.faulted
  {
    var count;
    r, count := SendParts(bucket, id, body, size, buf, buffered, ahead, all);
    numbers := seq(count, i => i + 1);
    if r == Stored {
      PartsComplete(bucket.uploads[id].parts, numbers, buf.Length, Asked(ahead, size));
    }
  }

  /** The loop itself: how many parts went up. */
  method SendParts(bucket: Bucket, id: nat, body: Body, size: int, buf: array<byte>, buffered: nat,
                   ghost ahead: Text, ghost all: Text)
    returns (r: PutResult, count: nat)
    requires id in bucket.uploads && bucket.uploads[id].parts == map[]
    requires MIN_PART_SIZE <= buf.Length <= MAX_PART_SIZE && size != 0
    requires if size < 0 then buffered == buf.Length else buffered == 0 && size <= MAX_PARTS * buf.Length
    requires ahead == buf[..buffered] + body.rest && all == body.hashed + body.rest
    modifies bucket, body, buf
    ensures bucket.objects == old(bucket.objects) && (old(bucket.faulted) ==> bucket.faulted)
    ensures id in bucket.uploads && bucket.uploads - {id} == old(bucket.uploads) - {id}
    ensures bucket.uploads[id].key == old(bucket.uploads[id].key)
    ensures r in {Stored, ReadFailed, TooLarge, StoreFailed}
    ensures r == Stored ==>
              && Readable(ahead, body.fails, size) && size <= |ahead| && 0 < count <= MAX_PARTS
              && PartsSoFar(bucket.uploads[id].parts, count, buf.Length, Asked(ahead, size))
              && all == body.hashed + body.rest && body.rest == (if size < 0 then [] else ahead[size..])
    ensures r == ReadFailed ==> !Readable(ahead, body.fails, size)
    ensures r == TooLarge ==> size < 0 && |ahead| > MAX_PARTS * buf.Length
    ensures r == StoreFailed ==> bucket.faulted
  {
    var number: nat, left: int, held: nat := 1, size, buffered;
    ghost var done: nat, others: map<nat, Upload>, key := 0, bucket.uploads - {id}, bucket.uploads[id].key;
    r := Stored;
    assert ahead[..0] == [] && ahead[0..] == ahead;
    while left != 0
      invariant r == Stored
      invariant bucket.objects == old(bucket.objects) && (old(bucket.faulted) ==> bucket.faulted)
      invariant id in bucket.uploads && bucket.uploads - {id} == others && bucket.uploads[id].key == key
      invariant held <= buf.Length && done <= |ahead|
      invariant InLoop(number, size, left, held, done, buf.Length, |ahead|, body.fails)
      invariant buf[..held] + body.rest == ahead[done..] && all == body.hashed + body.rest
      invariant PartsSoFar(bucket.uploads[id].parts, number - 1, buf.Length, ahead[..done])
      invariant left != 0 ==> FullParts(bucket.uploads[id].parts, number - 1, buf.Length)
      decreases |ahead| - done, left != 0
    {
      var n;
      r, n, left := Round(bucket, id, number, body, left, buf, held, ahead, all, done);
      if r != Stored {
        return r, 0;
      }
      assert buf[..0] + body.rest == body.rest;
      NumbersGoOn(number, size, held, done, n, left, buf.Length, |ahead|, body.fails);
      held := 0;
      if n == 0 {
        break;
      }
      number, done := number + 1, done + n;
      if left > 0 {
        left := left - n;
      }
    }
    count := number - 1;
    assert ahead[..done] == Asked(ahead, size);
  }

  /** The loop's numbers between two rounds, `done` bytes of `length` being uploaded. */
  ghost predicate InLoop(number: nat, size: int, left: int, held: nat, done: nat, partSize: nat, length: nat,
                         fails: bool) {
    && 1 <= number <= MAX_PARTS + 1
    && (size > 0 ==> held == 0 && left == size - done >= 0)
    && (size < 0 ==> left == size || (left == 0 && done == length && !fails))
    && (held > 0 ==> number == 1 && held == partSize)
    && (number == 1 ==> left == size && (size < 0 ==> held > 0))
  }

  /** After a round that uploaded n bytes, or none at the end of a stream, the numbers are as they must be. */
  lemma NumbersGoOn(number: nat, size: int, held: nat, done: nat, n: nat, left: int, partSize: nat, length: nat,
                    fails: bool)
    requires partSize > 0 && size != 0 && done + n <= length
    requires 1 <= number && (n > 0 ==> number <= MAX_PARTS) && number <= MAX_PARTS + 1
    requires size > 0 ==> left == size - done > 0 && n == Min(partSize, left)
    requires size < 0 ==> left == size || (left == 0 && done + n == length && !fails)
    requires size < 0 && left < 0 ==> n == partSize
    requires number == 1 ==> done == 0 && (size < 0 ==> held == partSize && n == held)
    ensures n > 0 ==>
              InLoop(number + 1, size, if left > 0 then left - n else left, 0, done + n, partSize, length, fails)
    ensures n == 0 ==> number > 1 && size < 0 && left == 0 && done == length && !fails
  {}

  /** One round of the loop: the next chunk, and the next part unless the stream had ended on a part boundary. */
  method Round(bucket: Bucket, id: nat, number: nat, body: Body, size: int, buf: array<byte>, held: nat,
               ghost ahead: Text, ghost all: Text, ghost done: nat)
    returns (r: PutResult, n: nat, left: int)
    requires id in bucket.uploads && 1 <= number <= MAX_PARTS + 1 && 0 < buf.Length <= MAX_PART_SIZE
    requires held <= buf.Length && size != 0 && (held > 0 ==> size < 0 && held == buf.Length) && done <= |ahead|
    requires ahead[done..] == buf[..held] + body.rest && all == body.hashed + body.rest
    requires FullParts(bucket.uploads[id].parts, number - 1, buf.Length)
    requires PartsSoFar(bucket.uploads[id].parts, number - 1, buf.Length, ahead[..done])
    requires size > 0 ==> done + size <= MAX_PARTS * buf.Length
    modifies bucket, body, buf
    ensures bucket.objects == old(bucket.objects) && (old(bucket.faulted) ==> bucket.faulted)
    ensures id in bucket.uploads && bucket.uploads - {id} == old(bucket.uploads) - {id}
    ensures bucket.uploads[id].key == old(bucket.uploads[id].key)
    ensures r in {Stored, ReadFailed, TooLarge, StoreFailed}
    ensures r == ReadFailed ==> if size > 0 then |ahead| - done < size else body.fails
    ensures r == TooLarge ==> size < 0 && |ahead| > MAX_PARTS * buf.Length
    ensures r == StoreFailed ==> bucket.faulted
    ensures r == Stored ==> n <= buf.Length && done + n <= |ahead| && body.rest == ahead[done + n..]
    ensures r == Stored ==> all == body.hashed + body.rest
    ensures r == Stored && size > 0 ==> n == Min(buf.Length, size) && left == size
    ensures r == Stored && size < 0 ==> left == size || (left == 0 && body.rest == [] && !body.fails)
    ensures r == Stored && left < 0 ==> n == buf.Length
    ensures r == Stored && n == 0 ==> bucket.uploads == old(bucket.uploads) && left == 0
    ensures r == Stored && n > 0 ==> number <= MAX_PARTS
    ensures r == Stored && n > 0 ==> PartsSoFar(bucket.uploads[id].parts, number, buf.Length, ahead[..done + n])
    ensures r == Stored && n == buf.Length ==> FullParts(bucket.uploads[id].parts, number, buf.Length)
  {
    var ok;
    ok, n, left := NextChunk(body, buf, size, held, ahead[done..], all);
    if !ok {
      return ReadFailed, n, left;
    }
    assert ahead[done + n..] == ahead[done..][n..];
    if n == 0 {
      return Stored, n, left;
    }
    if number > MAX_PARTS {
      FullLength(bucket.uploads[id].parts, MAX_PARTS, buf.Length);
      return TooLarge, n, left;
    }
    ok := UploadNext(bucket, id, number, buf[..n], buf.Length, ahead, done);
    r := if ok then Stored else StoreFailed;
  }

  /** One part goes up, after parts 1 to number - 1. */
  method UploadNext(bucket: Bucket, id: nat, number: nat, chunk: Text, ghost partSize: nat, ghost ahead: Text,
                    ghost done: nat)
    returns (ok: bool)
    requires id in bucket.uploads && 1 <= number <= MAX_PARTS && 0 < |chunk| <= partSize <= MAX_PART_SIZE
    requires done + |chunk| <= |ahead| && chunk == ahead[done..][..|chunk|]
    requires FullParts(bucket.uploads[id].parts, number - 1, partSize)
    requires PartsSoFar(bucket.uploads[id].parts, number - 1, partSize, ahead[..done])
    modifies bucket
    ensures bucket.objects == old(bucket.objects) && (old(bucket.faulted) ==> bucket.faulted)
    ensures id in bucket.uploads && bucket.uploads - {id} == old(bucket.uploads) - {id}
    ensures bucket.uploads[id].key == old(bucket.uploads[id].key)
    ensures ok ==> PartsSoFar(bucket.uploads[id].parts, number, partSize, ahead[..done + |chunk|])
    ensures ok && |chunk| == partSize ==> FullParts(bucket.uploads[id].parts, number, partSize)
    ensures !ok ==> bucket.faulted
  {
    AddPart(bucket.uploads[id].parts, number - 1, partSize, ahead, done, |chunk|);
    ok := bucket.UploadPart(id, number, chunk);
  }

  /** Parts uploaded this way satisfy S3 and assemble to the bytes they were cut from. */
  lemma PartsComplete(parts: map<nat, Text>, numbers: seq<nat>, partSize: nat, bytes: Text)
    requires PartsSoFar(parts, |numbers|, partSize, bytes) && MIN_PART_SIZE <= partSize
    requires 0 < |numbers| <= MAX_PARTS && forall i :: 0 <= i < |numbers| ==> numbers[i] == i + 1
    ensures Completable(parts, numbers) && Assemble(parts, numbers) == bytes
  {
    AssembleInOrder(parts, numbers);
  }

  lemma {:induction false} FullLength(parts: map<nat, Text>, count: nat, partSize: nat)
    requires FullParts(parts, count, partSize)
    ensures |Assemble'(parts, count)| == count * partSize
  {
    if count > 0 {
      FullLength(parts, count - 1, partSize);
      assert count * partSize == (count - 1) * partSize + partSize;
    }
  }

  /** Uploading the next n bytes of the stream as the next part. */
  lemma AddPart(parts: map<nat, Text>, count: nat, partSize: nat, ahead: Text, done: nat, n: nat)
    requires 0 < n <= partSize && done + n <= |ahead|
    requires FullParts(parts, count, partSize) && PartsSoFar(parts, count, partSize, ahead[..done])
    ensures var parts' := parts[count + 1 := ahead[done..][..n]];
            && PartsSoFar(parts', count + 1, partSize, ahead[..done + n])
            && (n == partSize ==> FullParts(parts', count + 1, partSize))
  {
    AssembleFrame(parts, count + 1, ahead[done..][..n], count);
    assert ahead[..done] + ahead[done..][..n] == ahead[..done + n];
  }

  ghost predicate FullParts(parts: map<nat, Text>, count: nat, partSize: nat) {
    forall k :: 1 <= k <= count ==> k in parts && |parts[k]| == partSize
  }

  /** Parts 1 to count are there, all full but the last, which is neither empty nor over-full, and make up `bytes`. */
  ghost predicate PartsSoFar(parts: map<nat, Text>, count: nat, partSize: nat, bytes: Text) {
    && (forall k :: 1 <= k <= count ==> k in parts && 0 < |parts[k]| <= partSize)
    && (forall k :: 1 <= k < count ==> |parts[k]| == partSize)
    && Assemble'(parts, count) == bytes
  }

  /**
   * What Put promises, as one conditional store: the asked-for bytes appear at the key exactly when the reader
   * delivers them and they hash to the OID; every other result leaves the objects as they were.
   */
  ghost predicate StoresIfVerified(objects: map<string, Text>, objects': map<string, Text>, key: string, stream: Text,
                                   fails: bool, size: int, sha: Text -> string, oid: string, r: PutResult) {
    match r
    case Stored =>
      && size <= |stream| && Readable(stream, fails, size) && Verifies(sha, Asked(stream, size), oid)
      && objects' == objects[key := Asked(stream, size)]
    case HashMismatch =>
      && size <= |stream| && Readable(stream, fails, size) && !Verifies(sha, Asked(stream, size), oid)
      && objects' == objects
    case ReadFailed => !Readable(stream, fails, size) && objects' == objects
    case _ => objects' == objects
  }

  method PutObject(bucket: Bucket, key: string, oid: string, data: Text, sha: Text -> string, hashed: Text)
    returns (r: PutResult)
    requires |data| <= MAX_PART_SIZE
    modifies bucket
    ensures bucket.uploads == old(bucket.uploads) && (old(bucket.faulted) ==> bucket.faulted)
    ensures r == Stored ==> Verifies(sha, hashed, oid) && bucket.objects == old(bucket.objects)[key := data]
    ensures r != Stored ==> bucket.objects == old(bucket.objects)
    ensures r == HashMismatch <==> !Verifies(sha, hashed, oid)
    ensures r in {Stored, HashMismatch, StoreFailed} && (r == StoreFailed ==> bucket.faulted)
  {
    if !Verifies(sha, hashed, oid) {
      return HashMismatch;
    }
    var ok := bucket.PutObject(key, data);
    r := if ok then Stored else StoreFailed;
  }

  /** putMultipart: create, upload the parts, verify and complete; any failure aborts the upload. */
  method PutMultipart(bucket: Bucket, id: nat, key: string, oid: string, body: Body, sha: Text -> string, size: int,
                      buf: array<byte>, buffered: nat, ghost stream: Text)
    returns (r: PutResult)
    requires id !in bucket.uploads
    requires MIN_PART_SIZE <= buf.Length <= MAX_PART_SIZE && size != 0
    requires if size < 0 then buffered == buf.Length else buffered == 0 && size <= MAX_PARTS * buf.Length
    requires stream == buf[..buffered] + body.rest && stream == body.hashed + body.rest
    modifies bucket, body, buf
    ensures bucket.uploads == old(bucket.uploads) && (old(bucket.faulted) ==> bucket.faulted)
    ensures StoresIfVerified(old(bucket.objects), bucket.objects, key, stream, body.fails, size, sha, oid, r)
    ensures r == TooLarge ==> size < 0 && |stream| > MAX_PARTS * buf.Length
    ensures r == StoreFailed ==> bucket.faulted
    ensures r != InvalidOID
  {
    ghost var uploads := bucket.uploads;
    var ok := bucket.CreateMultipartUpload(key, id);
    if !ok {
      return StoreFailed;
    }
    var numbers;
    r, numbers := UploadParts(bucket, id, body, size, buf, buffered, stream, stream);
    if r == Stored {
      assert body.hashed == Asked(stream, size);
      if !Verifies(sha, body.hashed, oid) {
        r := HashMismatch;
      } else {
        ok := bucket.CompleteMultipartUpload(id, numbers);
        if !ok {
          r := StoreFailed;
        }
      }
    }
    if r != Stored {
      bucket.AbortMultipartUpload(id);
    }
    assert bucket.uploads == uploads;
  }

  method PutUnknownSize(bucket: Bucket, id: nat, key: string, oid: string, body: Body, sha: Text -> string,
                        streamPartSize: nat)
    returns (r: PutResult)
    requires id !in bucket.uploads && body.hashed == [] && streamPartSize <= MAX_PART_SIZE
    modifies bucket, body
    ensures bucket.uploads == old(bucket.uploads) && (old(bucket.faulted) ==> bucket.faulted)
    ensures StoresIfVerified(old(bucket.objects), bucket.objects, key, old(body.rest), body.fails, -1, sha, oid, r)
    ensures r == TooLarge ==> |old(body.rest)| > MAX_PARTS * Max(streamPartSize, PART_SIZE)
    ensures r == StoreFailed ==> bucket.faulted
    ensures r != InvalidOID
  {
    ghost var stream := body.rest;
    var buf := new byte[Max(streamPartSize, PART_SIZE)](_ => 0);
    var n, end := Fill(body, buf);
    assert stream == stream[..n] + stream[n..];
    if end == Eof {
      assert body.hashed == buf[..n] == stream == Asked(stream, -1);
      r := PutObject(bucket, key, oid, buf[..n], sha, body.hashed);
    } else if end == Broken {
      r := ReadFailed;
    } else {
      r := PutMultipart(bucket, id, key, oid, body, sha, -1, buf, n, stream);
    }
  }

  /**
   * Put refines one conditional store for every way the reader splits and ends its data: the bucket gains exactly
   * the asked-for bytes at the object's key or nothing, and no multipart upload stays open.
   */
  method Put(bucket: Bucket, id: nat, prefix: string, endpoint: string, oid: string, body: Body, sha: Text -> string,
             size: int, maxUploadSize: int)
    returns (r: PutResult)
    requires id !in bucket.uploads && body.hashed == []
    modifies bucket, body
    ensures bucket.uploads == old(bucket.uploads) && (old(bucket.faulted) ==> bucket.faulted)
    ensures r == InvalidOID <==> !IsValidOID(oid)
    ensures r == InvalidOID ==> bucket.objects == old(bucket.objects)
    ensures IsValidOID(oid) ==>
              && Location(prefix, endpoint, oid).Some?
              && prefix <= Location(prefix, endpoint, oid).value
              && Paths.Split(Location(prefix, endpoint, oid).value[|prefix|..])
                 == [Directory(endpoint), [Lower(oid)[0], Lower(oid)[1]], [Lower(oid)[2], Lower(oid)[3]], Lower(oid)]
              && StoresIfVerified(old(bucket.objects), bucket.objects, Location(prefix, endpoint, oid).value,
                                  old(body.rest), body.fails, size, sha, oid, r)
    ensures r == TooLarge && size >= 0 ==> size > MAX_PARTS * MAX_PART_SIZE
    ensures r == TooLarge && size < 0 ==> |old(body.rest)| > MAX_PARTS * PartSizeFor(maxUploadSize)
    ensures IsValidOID(oid) && size > MAX_PARTS * MAX_PART_SIZE ==> r == TooLarge
    ensures r == StoreFailed ==> bucket.faulted
    ensures PutStep(prefix, sha, old(bucket.objects), bucket.objects,
                    PutCall(endpoint, oid, old(body.rest), body.fails, size, r))
  {
    var key := Location(prefix, endpoint, oid);
    if key.None? {
      return InvalidOID;
    }
    LocationElements(prefix, endpoint, oid);
    r := PutAt(bucket, id, key.value, oid, body, sha, size, maxUploadSize);
  }

  /** Put once the key is known. */
  method PutAt(bucket: Bucket, id: nat, key: string, oid: string, body: Body, sha: Text -> string, size: int,
               maxUploadSize: int)
    returns (r: PutResult)
    requires id !in bucket.uploads && body.hashed == []
    modifies bucket, body
    ensures bucket.uploads == old(bucket.uploads) && (old(bucket.faulted) ==> bucket.faulted)
    ensures r != InvalidOID
    ensures StoresIfVerified(old(bucket.objects), bucket.objects, key, old(body.rest), body.fails, size, sha, oid, r)
    ensures r == TooLarge && size >= 0 ==> size > MAX_PARTS * MAX_PART_SIZE
    ensures r == TooLarge && size < 0 ==> |old(body.rest)| > MAX_PARTS * PartSizeFor(maxUploadSize)
    ensures size > MAX_PARTS * MAX_PART_SIZE ==> r == TooLarge
    ensures r == StoreFailed ==> bucket.faulted
  {
    if size > MAX_PARTS * MAX_PART_SIZE {
      return TooLarge;
    }
    if size < 0 {
      r := PutUnknownSize(bucket, id, key, oid, body, sha, PartSizeFor(maxUploadSize));
      return;
    }
    var partSize := PartSizeFor(size);
    PartSizeIsLeast(size);
    ghost var stream := body.rest;
    if size > partSize {
      var buf := new byte[partSize](_ => 0);
      r := PutMultipart(bucket, id, key, oid, body, sha, size, buf, 0, stream);
      return;
    }
    var buf := new byte[size](_ => 0);
    var ok := ReadFull(body, buf, size);
    if !ok {
      return ReadFailed;
    }
    assert body.hashed == buf[..] == buf[..size] == Asked(stream, size);
    r := PutObject(bucket, key, oid, buf[..], sha, body.hashed);
  }

  /**
   * A stream no longer than the configured maximum never runs into the part limit, not even when it fills all
   * 10000 parts exactly.
   */
  lemma StreamWithinLimitFits(length: nat, maxUploadSize: int)
    requires length <= maxUploadSize <= MAX_PARTS * MAX_PART_SIZE
    ensures length <= MAX_PARTS * PartSizeFor(maxUploadSize)
  {
    PartSizeIsLeast(maxUploadSize);
  }

  /** Nothing but a bad OID, a bad hash, a short stream or a failed call stops a Put within the limits. */
  method PutWithinLimits(bucket: Bucket, id: nat, prefix: string, endpoint: string, oid: string, body: Body,
                         sha: Text -> string, size: int, maxUploadSize: int)
    returns (r: PutResult)
    requires id !in bucket.uploads && body.hashed == [] && !bucket.faulted && IsValidOID(oid)
    requires if size < 0 then |body.rest| <= maxUploadSize <= MAX_PARTS * MAX_PART_SIZE
             else size <= MAX_PARTS * MAX_PART_SIZE
    requires size <= |body.rest| && Readable(body.rest, body.fails, size)
    requires Verifies(sha, Asked(body.rest, size), oid)
    modifies bucket, body
    ensures r == Stored || bucket.faulted
    ensures Location(prefix, endpoint, oid).Some?
    ensures r == Stored ==>
              var key := Location(prefix, endpoint, oid).value;
              bucket.objects == old(bucket.objects)[key := old(Asked(body.rest, size))]
    ensures bucket.uploads == old(bucket.uploads)
  {
    if size < 0 {
      StreamWithinLimitFits(|body.rest|, maxUploadSize);
    }
    r := Put(bucket, id, prefix, endpoint, oid, body, sha, size, maxUploadSize);
  }

  // ---- any number of Puts ----

  /** A finished Put: what it was asked to store, what its reader had to give, and how it ended. */
  datatype PutCall = PutCall(endpoint: string, oid: string, stream: Text, fails: bool, size: int, result: PutResult)

  /** What a Put does to the bucket's objects. */
  ghost predicate PutStep(prefix: string, sha: Text -> string, objects: map<string, Text>, objects': map<string, Text>,
                          call: PutCall) {
    match Location(prefix, call.endpoint, call.oid)
    case None => objects' == objects
    case Some(key) =>
      StoresIfVerified(objects, objects', key, call.stream, call.fails, call.size, sha, call.oid, call.result)
  }

  /** The bucket's objects before and after each of a sequence of Puts. */
  ghost predicate IsPutRun(prefix: string, sha: Text -> string, states: seq<map<string, Text>>, calls: seq<PutCall>) {
    |states| == |calls| + 1 && forall k :: 0 < k < |states| ==> PutRunStep(prefix, sha, states, calls, k)
  }

  ghost predicate PutRunStep(prefix: string, sha: Text -> string, states: seq<map<string, Text>>, calls: seq<PutCall>,
                             k: nat)
    requires |states| == |calls| + 1 && 0 < k < |states|
  {
    PutStep(prefix, sha, states[k - 1], states[k], calls[k - 1])
  }

  /** The object with this ID of this endpoint is in the bucket. */
  ghost predicate HasObject(objects: map<string, Text>, prefix: string, endpoint: string, oid: string) {
    Location(prefix, endpoint, oid).Some? && Location(prefix, endpoint, oid).value in objects
  }

  ghost function ObjectAt(objects: map<string, Text>, prefix: string, endpoint: string, oid: string): Text
    requires HasObject(objects, prefix, endpoint, oid)
  {
    objects[Location(prefix, endpoint, oid).value]
  }

  /** Whatever lies at an object's key hashes to the object's ID. */
  ghost predicate Intact(objects: map<string, Text>, prefix: string, sha: Text -> string) {
    forall endpoint, oid :: HasObject(objects, prefix, endpoint, oid) ==>
      Verifies(sha, ObjectAt(objects, prefix, endpoint, oid), oid)
  }

  /** One key never serves two IDs, whatever the endpoints. */
  lemma SameKeySameID(prefix: string, e: string, e': string, a: string, b: string)
    requires Location(prefix, e, a).Some? && Location(prefix, e, a) == Location(prefix, e', b)
    ensures Lower(a) == Lower(b)
  {
    LocationsAgree(prefix, Directory(e), Directory(e'), Lower(a), Lower(b));
    LowerIsIdempotent(a);
    LowerIsIdempotent(b);
  }

  lemma PutKeepsIntact(prefix: string, sha: Text -> string, objects: map<string, Text>, objects': map<string, Text>,
                       call: PutCall)
    requires PutStep(prefix, sha, objects, objects', call) && Intact(objects, prefix, sha)
    ensures Intact(objects', prefix, sha)
  {
    forall e, oid | HasObject(objects', prefix, e, oid) ensures Verifies(sha, ObjectAt(objects', prefix, e, oid), oid) {
      if Location(prefix, e, oid) == Location(prefix, call.endpoint, call.oid) {
        SameKeySameID(prefix, e, call.endpoint, oid, call.oid);
      }
      assert call.result != Stored || Location(prefix, e, oid) != Location(prefix, call.endpoint, call.oid) ==>
          HasObject(objects, prefix, e, oid) && ObjectAt(objects', prefix, e, oid) == ObjectAt(objects, prefix, e, oid);
    }
  }

  lemma RunStepKeepsIntact(prefix: string, sha: Text -> string, states: seq<map<string, Text>>, calls: seq<PutCall>,
                           k: nat)
    requires |states| == |calls| + 1 && 0 < k < |states| && PutRunStep(prefix, sha, states, calls, k)
    requires Intact(states[k - 1], prefix, sha)
    ensures Intact(states[k], prefix, sha)
  {
    PutKeepsIntact(prefix, sha, states[k - 1], states[k], calls[k - 1]);
  }

  /** However many Puts to whatever endpoints: a bucket whose objects hash to their IDs stays so. */
  lemma {:induction false} BucketStaysIntact(prefix: string, sha: Text -> string, states: seq<map<string, Text>>,
                                             calls: seq<PutCall>, k: nat)
    requires IsPutRun(prefix, sha, states, calls) && k < |states| && Intact(states[0], prefix, sha)
    ensures Intact(states[k], prefix, sha)
  {
    if k > 0 {
      BucketStaysIntact(prefix, sha, states, calls, k - 1);
      RunStepKeepsIntact(prefix, sha, states, calls, k);
    }
  }

  /** A Put to another endpoint, or of another ID, leaves the object alone. */
  lemma PutLeavesOthers(prefix: string, sha: Text -> string, paths: seq<string>, i: nat, j: nat, oid: string,
                        objects: map<string, Text>, objects': map<string, Text>, call: PutCall)
    requires Accepted(paths) && i < |paths| && j < |paths| && IsValidOID(oid)
    requires PutStep(prefix, sha, objects, objects', call) && call.endpoint == paths[j]
    requires i != j || NormaliseOID(call.oid) != NormaliseOID(oid)
    ensures HasObject(objects', prefix, paths[i], oid) <==> HasObject(objects, prefix, paths[i], oid)
    ensures HasObject(objects, prefix, paths[i], oid) ==>
              ObjectAt(objects', prefix, paths[i], oid) == ObjectAt(objects, prefix, paths[i], oid)
  {
    if IsValidOID(call.oid) {
      LocationsAreInjective(prefix, paths, i, j, oid, call.oid);
    }
  }

  /**
   * A stored object stays: every later state of the bucket has it, with a hash that is its ID, so with the very same
   * bytes when the hash has no collisions.
   */
  lemma {:induction false} BucketObjectsStay(prefix: string, sha: Text -> string, states: seq<map<string, Text>>,
                                             calls: seq<PutCall>, i: nat, j: nat, endpoint: string, oid: string)
    requires IsPutRun(prefix, sha, states, calls) && i <= j < |states| && Intact(states[0], prefix, sha)
    requires HasObject(states[i], prefix, endpoint, oid)
    ensures HasObject(states[j], prefix, endpoint, oid)
    ensures var before, after := ObjectAt(states[i], prefix, endpoint, oid), ObjectAt(states[j], prefix, endpoint, oid);
            && Verifies(sha, after, oid)
            && ((forall a, b :: Lower(sha(a)) == Lower(sha(b)) ==> a == b) ==> after == before)
  {
    BucketStaysIntact(prefix, sha, states, calls, i);
    BucketStaysIntact(prefix, sha, states, calls, j);
    if i < j {
      BucketObjectsStay(prefix, sha, states, calls, i, j - 1, endpoint, oid);
      assert PutRunStep(prefix, sha, states, calls, j);
    }
  }
}
