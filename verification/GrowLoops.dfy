/** The grow-until-parse loops: read a longer and longer prefix until the header parses. */
module GrowLoops {
  import opened GgufReader
  import opened Strings
  import C = GgufCursor

  const START_BYTES: nat := 0x80_0000
  const MAX_HEADER_BYTES: nat := 0x1000_0000

  datatype FetchError = Corrupt(e: ReadError) | HeaderIncomplete(fetched: nat) | Http

  datatype Fetched = Got(bytes: seq<Byte>, total: Option<nat>) | Failed(error: FetchError)

  function Pow2(k: nat): (p: nat)
    ensures p >= 1
  {
    if k == 0 then 1 else 2 * Pow2(k - 1)
  }

  /** The sizes the loops ask for, one after another. */
  function Size(k: nat): nat {
    START_BYTES * Pow2(k)
  }

  lemma Sizes()
    ensures Size(0) == START_BYTES && Size(5) == MAX_HEADER_BYTES && Size(6) == 2 * MAX_HEADER_BYTES
    ensures Size(1) == 2 * Size(0) && Size(2) == 2 * Size(1) && Size(3) == 2 * Size(2)
         && Size(4) == 2 * Size(3) && Size(5) == 2 * Size(4)
  {
  }

  lemma {:induction false} SizesGrow(j: nat, k: nat)
    requires j <= k
    ensures Size(j) <= Size(k)
  {
    if j < k {
      SizesGrow(j, k - 1);
    }
  }

  /** All of the file that the loops would ever look at. */
  function Visible(file: seq<Byte>): seq<Byte> {
    if |file| <= MAX_HEADER_BYTES then file else file[..MAX_HEADER_BYTES]
  }

  /** What a grow loop owes its caller, without saying how it grows: the header of the whole
      file from some prefix of it; the file's own definitive error; or, when the visible part
      is too short, an error that says whether the file ended or the limit was reached. */
  ghost predicate RightAnswer(file: seq<Byte>, r: Fetched) {
    match Parse(Visible(file))
    case Ok(_, _) => r.Got? && r.bytes <= file && Parse(r.bytes) == Parse(file) && r.total == Some(|file|)
    case Err(e) =>
      if !IsTruncation(e) then r == Failed(Corrupt(e)) && Parse(file) == Err(e)
      else if |file| <= MAX_HEADER_BYTES then r == Failed(Corrupt(e))
      else r == Failed(HeaderIncomplete(MAX_HEADER_BYTES))
  }

  /** A definitive result on a prefix is the result on every longer one. */
  lemma PrefixDecides(file: seq<Byte>, n: nat, m: nat)
    requires n <= m <= |file| && !Short(Parse(file[..n]))
    ensures Parse(file[..m]) == Parse(file[..n]) && Parse(file) == Parse(file[..n])
  {
    hide Parse;
    ParseStable(file[..n], file[n..m]);
    assert file[..n] + file[n..m] == file[..m];
    ParseStable(file[..n], file[n..]);
    assert file[..n] + file[n..] == file;
  }

  /** Stopping at a definitive prefix is right. */
  lemma DefinitiveIsRight(file: seq<Byte>, n: nat, r: Fetched)
    requires n <= |Visible(file)| && !Short(Parse(file[..n]))
    requires match Parse(file[..n])
             case Ok(_, _) => r == Got(file[..n], Some(|file|))
             case Err(e) => r == Failed(Corrupt(e))
    ensures RightAnswer(file, r)
  {
    hide Parse;
    PrefixDecides(file, n, |Visible(file)|);
    assert file[..|Visible(file)|] == Visible(file);
  }

  method ReadLocalPrefix(file: seq<Byte>) returns (r: Fetched)
    ensures RightAnswer(file, r)
  {
    hide Parse, Size;
    Sizes();
    var total := |file|;
    var want := if START_BYTES < total then START_BYTES else if total > 1 then total else 1;
    ghost var k := 0;
    while true
      invariant k <= 5 && want == (if Size(k) < total then Size(k) else if total > 1 then total else 1)
      decreases 6 - k
    {
      var buf := file[..if want < total then want else total];
      var parsed := C.ParseHeader(buf);
      match parsed
      case Success(_) =>
        DefinitiveIsRight(file, |buf|, Got(buf, Some(total)));
        return Got(buf, Some(total));
      case Failure(e) =>
        if !IsTruncation(e) {
          DefinitiveIsRight(file, |buf|, Failed(Corrupt(e)));
          return Failed(Corrupt(e));
        }
        if |buf| >= total {
          assert buf == file;
          return Failed(Corrupt(e));
        }
        want := if want * 2 < total then want * 2 else total;
        if want > MAX_HEADER_BYTES {
          return Failed(HeaderIncomplete(|buf|));
        }
        k := k + 1;
    }
  }

  // ---- over the network ------------------------------------------------------------

  /** How a server may answer one range request: with up to `len` bytes of the range, telling
      the file length or not; with the whole file; or not at all. What it sends is the file's. */
  datatype Answer = Partial(len: nat, tellsTotal: bool) | Whole | Refuse

  datatype Chunk = PartialBody(body: seq<Byte>, total: Option<nat>) | WholeBody(body: seq<Byte>) | HttpError

  class Server {
    const file: seq<Byte>
    /** The answer to each request, by number. */
    const answers: nat -> Answer
    var requests: nat

    constructor (file: seq<Byte>, answers: nat -> Answer)
      ensures this.file == file && this.answers == answers && requests == 0
    {
      this.file, this.answers, requests := file, answers, 0;
    }

    /** Ask for `bytes=from..want-1`; a range behind the end is refused. */
    method GetRange(from: nat, want: nat) returns (c: Chunk)
      modifies this
      ensures requests == old(requests) + 1
      ensures match answers(old(requests)) {
        case Refuse => c == HttpError
        case Whole => c == WholeBody(file)
        case Partial(len, tells) =>
          if from >= |file| then c == HttpError else (
            && c.PartialBody? && c.body <= file[from..] && |c.body| == Fewest(len, Asked(from, want), |file| - from)
            && c.total == if tells then Some(|file|) else None)
      }
    {
      var answer := answers(requests);
      requests := requests + 1;
      match answer
      case Refuse => c := HttpError;
      case Whole => c := WholeBody(file);
      case Partial(len, tells) =>
        if from >= |file| {
          c := HttpError;
        } else {
          var end := if want > from + 1 then want else from + 1;
          var stop := if end < |file| then end else |file|;
          var upTo := if from + len < stop then from + len else stop;
          c := PartialBody(file[from..upTo], if tells then Some(|file|) else None);
        }
    }
  }

  /** The bytes in `from..want-1`, or one byte if that range is empty. */
  function Asked(from: nat, want: nat): nat {
    if want > from + 1 then want - from else 1
  }

  function Fewest(a: nat, b: nat, c: nat): nat {
    if a <= b && a <= c then a else if b <= c then b else c
  }

  /** Whatever the server does: bytes returned hold the header of the whole file, and an
      error called corrupt is the file's own. */
  ghost predicate SoundAnswer(file: seq<Byte>, r: Fetched) {
    match r
    case Got(bytes, _) => bytes <= file && Parse(bytes).Ok? && Parse(file) == Parse(bytes)
    case Failed(Corrupt(e)) => Parse(file) == Err(e)
    case Failed(_) => true
  }

  /** The server sends every range in full and tells the length. */
  ghost predicate Obliging(answers: nat -> Answer) {
    forall k :: answers(k).Partial? && answers(k).tellsTotal && answers(k).len >= MAX_HEADER_BYTES
  }

  lemma SoundPrefix(file: seq<Byte>, n: nat, total: Option<nat>)
    requires n <= |file|
    ensures match Parse(file[..n])
            case Ok(_, _) => SoundAnswer(file, Got(file[..n], total))
            case Err(e) => !IsTruncation(e) || n == |file| ==> SoundAnswer(file, Failed(Corrupt(e)))
  {
    hide Parse;
    assert file[..|file|] == file;
    if !Short(Parse(file[..n])) {
      PrefixDecides(file, n, n);
    }
  }

  /** The request loop of `fetch_url`, on a server that has answered nothing yet. */
  method FetchUrl(server: Server) returns (r: Fetched)
    requires server.requests == 0
    modifies server
    ensures SoundAnswer(server.file, r)
    ensures server.requests <= 6
    ensures Obliging(server.answers) && server.file != [] ==> RightAnswer(server.file, r)
    ensures Obliging(server.answers) && server.file == [] ==> r == Failed(Http)
  {
    hide Parse, Size, RightAnswer, SoundAnswer;
    Sizes();
    var file := server.file;
    var buf: seq<Byte> := [];
    var want := START_BYTES;
    var total: Option<nat> := None;
    while true
      invariant server.requests <= 6 && want == Size(server.requests)
      invariant START_BYTES <= want && |buf| <= want && buf <= file
      invariant server.requests > 0 ==> |buf| * 2 <= want
      invariant total.Some? ==> total.value == |file|
      invariant server.requests == 0 ==> buf == []
      invariant server.requests > 0 ==> Short(Parse(buf))
      invariant Obliging(server.answers) && server.requests > 0 ==>
        0 < |buf| < |file| && |buf| == Size(server.requests - 1)
      decreases 6 - server.requests
    {
      var from := |buf|;
      if from >= want {
        want := want * 2;
      }
      if want > MAX_HEADER_BYTES {
        if Obliging(server.answers) {
          LimitIsRight(file, buf);
        }
        SoundIncomplete(file, from);
        return Failed(HeaderIncomplete(from));
      }
      ghost var n := server.requests;
      SizesGrow(n, 6);
      var chunk := server.GetRange(from, want);
      match chunk {
        case HttpError =>
          SoundHttp(file);
          return Failed(Http);
        case WholeBody(body) =>
          if |body| > MAX_HEADER_BYTES {
            SoundIncomplete(file, from);
            return Failed(HeaderIncomplete(from));
          }
          buf := body;
          total := Some(|buf|);
        case PartialBody(body, t) =>
          buf := buf + body;
          total := if t.Some? then t else total;
      }
      var done: bool;
      done, r := Judge(file, buf, total);
      if done {
        return;
      }
      SizeDoubles(n);
      want := want * 2;
    }
  }

  /** Stop with the bytes or an error, or go on because bytes are missing. */
  method Judge(ghost file: seq<Byte>, buf: seq<Byte>, total: Option<nat>) returns (done: bool, r: Fetched)
    requires buf <= file && (total.Some? ==> total.value == |file|)
    ensures !done ==> Short(Parse(buf)) && (total.Some? ==> |buf| < |file|)
    ensures done ==> SoundAnswer(file, r)
    ensures done && total.Some? && |buf| <= MAX_HEADER_BYTES ==> RightAnswer(file, r)
  {
    hide Parse, RightAnswer, SoundAnswer;
    assert buf == file[..|buf|];
    SoundPrefix(file, |buf|, total);
    var parsed := C.ParseHeader(buf);
    match parsed
    case Success(_) =>
      if total.Some? && |buf| <= MAX_HEADER_BYTES {
        DefinitiveIsRight(file, |buf|, Got(buf, total));
      }
      return true, Got(buf, total);
    case Failure(e) =>
      if !IsTruncation(e) {
        if total.Some? && |buf| <= MAX_HEADER_BYTES {
          DefinitiveIsRight(file, |buf|, Failed(Corrupt(e)));
        }
        return true, Failed(Corrupt(e));
      }
      if total.Some? && |buf| >= total.value {
        assert buf == file;
        if |buf| <= MAX_HEADER_BYTES {
          WholeIsRight(file, e);
        }
        return true, Failed(Corrupt(e));
      }
      return false, Failed(Corrupt(e));
  }

  lemma SizeDoubles(k: nat)
    ensures Size(k + 1) == 2 * Size(k)
  {
  }

  lemma LimitIsRight(file: seq<Byte>, buf: seq<Byte>)
    requires buf <= file && |buf| == MAX_HEADER_BYTES && |buf| < |file| && Short(Parse(buf))
    ensures RightAnswer(file, Failed(HeaderIncomplete(MAX_HEADER_BYTES)))
  {
    hide Parse;
    assert buf == Visible(file);
  }

  lemma WholeIsRight(file: seq<Byte>, e: ReadError)
    requires |file| <= MAX_HEADER_BYTES && Parse(file) == Err(e) && IsTruncation(e)
    ensures RightAnswer(file, Failed(Corrupt(e)))
  {
    hide Parse;
  }

  lemma SoundIncomplete(file: seq<Byte>, n: nat)
    ensures SoundAnswer(file, Failed(HeaderIncomplete(n)))
  {
  }

  lemma SoundHttp(file: seq<Byte>)
    ensures SoundAnswer(file, Failed(Http))
  {
  }

  /** The right answer is a sound one. */
  lemma RightIsSound(file: seq<Byte>, r: Fetched)
    requires RightAnswer(file, r)
    ensures SoundAnswer(file, r)
  {
    hide Parse;
    assert file[..|file|] == file;
    var n := |Visible(file)|;
    if !Short(Parse(file[..n])) {
      PrefixDecides(file, n, |file|);
    }
  }

  /** Neither loop calls a file corrupt that parses as a whole; and bytes they return have the
      header of the whole. */
  lemma NeverCorrupt(file: seq<Byte>, r: Fetched)
    requires SoundAnswer(file, r) || RightAnswer(file, r)
    ensures Parse(file).Ok? ==> !(r.Failed? && r.error.Corrupt?)
    ensures r.Got? ==> Parse(file).Ok? && Parse(file) == Parse(r.bytes)
  {
    hide Parse, RightAnswer;
    if RightAnswer(file, r) {
      RightIsSound(file, r);
    }
  }
}
