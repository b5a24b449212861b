/** The byte-range transform of proxy/Transform.cc: a resumable loop that cuts ranges out of a
    stream arriving in arbitrary chunks, and frames several of them as multipart/byteranges
    (section 4.1 and Appendix A of RFC 7233).  Octets are modelled as `char`. */
module RangeCutting {

  /** A range record; -1/-1 marks an entry that was dropped. */
  datatype Range = Range(start: int, end: int) {
    predicate Good() { end != -1 }
  }

  /** What the parser of the Range header guarantees (HttpSM::parse_range_and_compare). */
  ghost predicate InOrder(ranges: seq<Range>) {
    && |ranges| > 0 && ranges[0].Good()
    && (forall i :: 0 <= i < |ranges| && ranges[i].Good() ==> 0 <= ranges[i].start <= ranges[i].end)
    && (forall i :: 0 <= i < |ranges| && !ranges[i].Good() ==> ranges[i].start == -1)
    && (forall i, j :: 0 <= i < j < |ranges| && ranges[i].Good() && ranges[j].Good() ==> ranges[i].end < ranges[j].start)
  }

  /** The input is long enough for the good ranges among the first k. */
  ghost predicate Covers(ranges: seq<Range>, k: nat, input: string) {
    forall i :: 0 <= i < k <= |ranges| && ranges[i].Good() ==> ranges[i].end < |input|
  }

  /** Ranges with the text that goes before each good one and after the last. */
  datatype Layout = Layout(ranges: seq<Range>, openers: seq<string>, closing: string) {
    ghost predicate Valid() { InOrder(ranges) && |openers| == |ranges| }
  }

  /** Everything written for the first k entries. */
  function Upto(l: Layout, k: nat, input: string): string
    requires l.Valid() && k <= |l.ranges| && Covers(l.ranges, k, input)
  {
    if k == 0 then "" else Upto(l, k - 1, input) + Piece(l, k - 1, input)
  }

  /** What is written for entry i alone. */
  function Piece(l: Layout, i: nat, input: string): string
    requires l.Valid() && i < |l.ranges| && Covers(l.ranges, i + 1, input)
  {
    var r := l.ranges[i];
    if r.Good() then l.openers[i] + input[r.start..r.end + 1] else ""
  }

  /** What is written while range k is being cut: its opener and its bytes so far. */
  function Written(l: Layout, k: nat, input: string): string
    requires l.Valid() && k < |l.ranges| && l.ranges[k].Good() && Covers(l.ranges, k, input)
  {
    Upto(l, k, input) + l.openers[k] + if |input| > l.ranges[k].start then input[l.ranges[k].start..] else ""
  }

  /** The finished response body. */
  function Body(l: Layout, input: string): string
    requires l.Valid() && Covers(l.ranges, |l.ranges|, input)
  {
    Upto(l, |l.ranges|, input) + l.closing
  }

  /** Only the bytes up to the last good range matter. */
  lemma {:induction false} UptoStable(l: Layout, k: nat, input: string, more: string)
    requires l.Valid() && k <= |l.ranges| && Covers(l.ranges, k, input)
    ensures Covers(l.ranges, k, input + more) && Upto(l, k, input + more) == Upto(l, k, input)
  {
    hide Piece;
    if k > 0 {
      UptoStable(l, k - 1, input, more);
      PieceStable(l, k - 1, input, more);
    }
  }

  lemma PieceStable(l: Layout, i: nat, input: string, more: string)
    requires l.Valid() && i < |l.ranges| && Covers(l.ranges, i + 1, input)
    ensures Covers(l.ranges, i + 1, input + more) && Piece(l, i, input + more) == Piece(l, i, input)
  {
    var r := l.ranges[i];
    if r.Good() {
      assert (input + more)[r.start..r.end + 1] == input[r.start..r.end + 1];
    }
  }

  /** A bad entry adds nothing. */
  lemma UptoBad(l: Layout, k: nat, input: string)
    requires l.Valid() && k < |l.ranges| && !l.ranges[k].Good() && Covers(l.ranges, k, input)
    ensures Covers(l.ranges, k + 1, input) && Upto(l, k + 1, input) == Upto(l, k, input)
  {
    assert Piece(l, k, input) == "";
  }

  lemma WrittenSkips(l: Layout, k: nat, input: string, more: string)
    requires l.Valid() && k < |l.ranges| && l.ranges[k].Good() && Covers(l.ranges, k, input)
    requires |input| + |more| <= l.ranges[k].start
    ensures Covers(l.ranges, k, input + more) && Written(l, k, input + more) == Written(l, k, input)
  {
    UptoStable(l, k, input, more);
  }

  lemma WrittenGrows(l: Layout, k: nat, input: string, more: string)
    requires l.Valid() && k < |l.ranges| && l.ranges[k].Good() && Covers(l.ranges, k, input)
    requires |input| >= l.ranges[k].start
    ensures Covers(l.ranges, k, input + more) && Written(l, k, input + more) == Written(l, k, input) + more
  {
    UptoStable(l, k, input, more);
    var start := l.ranges[k].start;
    assert (input + more)[start..] == input[start..] + more;
    var head := Upto(l, k, input) + l.openers[k];
    Regroup(head, input[start..], more);
  }

  lemma Regroup(a: string, b: string, c: string)
    ensures a + (b + c) == a + b + c
  {
  }

  /** A range whose last byte has been consumed has been written completely. */
  lemma WrittenWhole(l: Layout, k: nat, input: string)
    requires l.Valid() && k < |l.ranges| && l.ranges[k].Good() && Covers(l.ranges, k, input)
    requires |input| == l.ranges[k].end + 1
    ensures Covers(l.ranges, k + 1, input) && Written(l, k, input) == Upto(l, k + 1, input)
  {
    var r := l.ranges[k];
    assert input[r.start..] == input[r.start..r.end + 1];
    assert Upto(l, k + 1, input) == Upto(l, k, input) + (l.openers[k] + input[r.start..r.end + 1]);
  }

  /** Two streams that agree up to the end of the last good range give the same body. */
  lemma BodyStable(l: Layout, input: string, more: string)
    requires l.Valid() && Covers(l.ranges, |l.ranges|, input)
    ensures Covers(l.ranges, |l.ranges|, input + more) && Body(l, input + more) == Body(l, input)
  {
    UptoStable(l, |l.ranges|, input, more);
  }
}

module RangeFraming {
  import opened RangeCutting

  const RANGE_NUMBERS_LENGTH := 60
  const INT64_LIMIT := 9223372036854775808  // 2^63

  /** The fixed texts of the framing.  The proofs hold for any; WORDING has those of the source. */
  datatype Wording = Wording(crlf: string, dashes: string, bound: string, contType: string, contRange: string)

  const WORDING := Wording("\r\n", "--", "RANGE_SEPARATOR", "Content-type: ", "Content-range: bytes ")

  datatype Job = Job(ranges: seq<Range>, contentType: string, outputCl: int, w: Wording) {
    ghost predicate Valid() {
      && InOrder(ranges) && 0 <= outputCl < INT64_LIMIT
      && forall i :: 0 <= i < |ranges| && ranges[i].Good() ==> ranges[i].end < INT64_LIMIT
    }
  }

  // ---- numbers ------------------------------------------------------------------------------

  function Digit(n: nat): (c: char)
    requires n < 10
    ensures '0' <= c <= '9' && c as int == '0' as int + n
  {
    "0123456789"[n]
  }

  /** What %PRId64 prints for a number that is not negative. */
  function Decimal(n: nat): (s: string)
    ensures |s| == NumChars(n)
  {
    if n < 10 then [Digit(n)] else Decimal(n / 10) + [Digit(n % 10)]
  }

  predicate AllDigits(s: string) {
    forall i :: 0 <= i < |s| ==> '0' <= s[i] <= '9'
  }

  /** Reads digits from left to right, after a number read so far. */
  function ReadOn(sofar: nat, digits: string): nat
    requires AllDigits(digits)
    decreases |digits|
  {
    if |digits| == 0 then sofar else ReadOn(10 * sofar + (digits[0] as int - '0' as int), digits[1..])
  }

  /** The usual way to write a number: digits, without a zero in front, that read as the number. */
  predicate Numeral(digits: string, n: nat) {
    |digits| > 0 && AllDigits(digits) && (digits[0] == '0' ==> |digits| == 1) && ReadOn(0, digits) == n
  }

  lemma {:induction false} ReadOnLast(sofar: nat, digits: string, c: char)
    requires '0' <= c <= '9' && AllDigits(digits)
    ensures AllDigits(digits + [c]) && ReadOn(sofar, digits + [c]) == 10 * ReadOn(sofar, digits) + (c as int - '0' as int)
    decreases |digits|
  {
    if |digits| > 0 {
      ReadOnLast(10 * sofar + (digits[0] as int - '0' as int), digits[1..], c);
      assert (digits + [c])[1..] == digits[1..] + [c];
    }
  }

  /** What is printed for a number reads as that number. */
  lemma {:induction false} DecimalReads(n: nat)
    ensures Numeral(Decimal(n), n) && (Decimal(n)[0] == '0' <==> n == 0)
  {
    if n >= 10 {
      DecimalReads(n / 10);
      ReadOnLast(0, Decimal(n / 10), Digit(n % 10));
    }
  }

  /** And nothing else that is written in the usual way does. */
  lemma {:induction false} NumeralIsDecimal(digits: string, n: nat)
    requires Numeral(digits, n)
    ensures digits == Decimal(n)
  {
    var last := |digits| - 1;
    var front := digits[..last];
    assert digits == front + [digits[last]];
    ReadOnLast(0, front, digits[last]);
    if last > 0 {
      NumeralIsDecimal(front, n / 10);
      DecimalReads(n / 10);
    }
  }

  /** num_chars_for_int on numbers that are not negative. */
  function NumChars(n: nat): nat {
    if n < 10 then 1 else 1 + NumChars(n / 10)
  }

  function Pow10(k: nat): nat { if k == 0 then 1 else 10 * Pow10(k - 1) }

  lemma {:induction false} NumCharsBound(n: nat, k: nat)
    requires k >= 1 && n < Pow10(k)
    ensures NumChars(n) <= k
  {
    if n >= 10 {
      assert Pow10(1) == 10;
      NumCharsBound(n / 10, k - 1);
    }
  }

  lemma Int64Digits(n: nat)
    requires n < INT64_LIMIT
    ensures NumChars(n) <= 19
  {
    assert Pow10(19) == 10000000000000000000 by { Pow10Of19(); }
    NumCharsBound(n, 19);
  }

  lemma Pow10Of19()
    ensures Pow10(19) == 10000000000000000000
  {
    assert Pow10(5) == 100000;
    assert Pow10(10) == 10000000000;
    assert Pow10(15) == 1000000000000000;
  }

  // ---- what is written ----------------------------------------------------------------------

  function Boundary(w: Wording, end: bool): string {
    w.dashes + w.bound + (if end then w.dashes else "") + w.crlf
  }

  /** The numbers line as snprintf leaves it in its buffer. */
  function Numbers(r: Range, cl: int): string
    requires 0 <= r.start && 0 <= r.end && 0 <= cl
  {
    var text := Decimal(r.start) + "-" + Decimal(r.end) + "/" + Decimal(cl);
    if |text| < RANGE_NUMBERS_LENGTH then text else text[..RANGE_NUMBERS_LENGTH - 1]
  }

  /** For 64-bit values the numbers are never truncated. */
  lemma NumbersFit(r: Range, cl: int)
    requires 0 <= r.start < INT64_LIMIT && 0 <= r.end < INT64_LIMIT && 0 <= cl < INT64_LIMIT
    ensures Numbers(r, cl) == Decimal(r.start) + "-" + Decimal(r.end) + "/" + Decimal(cl)
    ensures |Numbers(r, cl)| == NumChars(r.start) + NumChars(r.end) + NumChars(cl) + 2
  {
    Int64Digits(r.start);
    Int64Digits(r.end);
    Int64Digits(cl);
  }

  function SubHeader(w: Wording, contentType: string, numbers: string): string {
    w.contType + contentType + w.crlf + w.contRange + numbers + w.crlf + w.crlf
  }

  /** A part header written piece by piece. */
  lemma SubHeaderParts(before: string, w: Wording, contentType: string, numbers: string)
    ensures before + (w.contType + contentType + w.crlf) + w.contRange + numbers + (w.crlf + w.crlf)
            == before + SubHeader(w, contentType, numbers)
  {
    var line := w.contType + contentType + w.crlf;
    Regroup(before, line, w.contRange);
    Regroup(before, line + w.contRange, numbers);
    Regroup(before, line + w.contRange + numbers, w.crlf + w.crlf);
    Regroup(line + w.contRange + numbers, w.crlf, w.crlf);
  }

  /** What opens the good range i: nothing when there is one entry only. */
  function Opener(job: Job, i: nat): string
    requires job.Valid() && i < |job.ranges| && job.ranges[i].Good()
  {
    if |job.ranges| == 1 then ""
    else
      (if i == 0 then "" else job.w.crlf) + Boundary(job.w, false) +
      SubHeader(job.w, job.contentType, Numbers(job.ranges[i], job.outputCl))
  }

  function Closing(job: Job): string {
    if |job.ranges| == 1 then "" else job.w.crlf + Boundary(job.w, true)
  }

  function Openers(job: Job, k: nat): (texts: seq<string>)
    requires job.Valid() && k <= |job.ranges|
    ensures |texts| == k
  {
    if k == 0 then [] else Openers(job, k - 1) + [if job.ranges[k - 1].Good() then Opener(job, k - 1) else ""]
  }

  lemma {:induction false} OpenersAt(job: Job, k: nat, i: nat)
    requires job.Valid() && i < k <= |job.ranges| && job.ranges[i].Good()
    ensures Openers(job, k)[i] == Opener(job, i)
  {
    if i < k - 1 {
      OpenersAt(job, k - 1, i);
    }
  }

  /** The layout of a response. */
  function Framing(job: Job): Layout
    requires job.Valid()
  {
    Layout(job.ranges, Openers(job, |job.ranges|), Closing(job))
  }

  ghost predicate Frames(l: Layout, job: Job) { job.Valid() && l == Framing(job) }

  /** One entry: the body is exactly the requested bytes. */
  lemma SingleRangeBody(l: Layout, job: Job, input: string)
    requires Frames(l, job) && |job.ranges| == 1 && Covers(l.ranges, 1, input)
    ensures Body(l, input) == input[job.ranges[0].start..job.ranges[0].end + 1]
  {
    OpenersAt(job, 1, 0);
    assert Upto(l, 1, input) == Upto(l, 0, input) + Piece(l, 0, input);
  }

  // ---- the grammar of RFC 7233, Appendix A --------------------------------------------------

  datatype Part = Part(headers: string, content: string)

  /** dash-boundary CRLF body-part *( CRLF dash-boundary CRLF body-part ) */
  function Encapsulations(w: Wording, parts: seq<Part>): string {
    if parts == [] then ""
    else Encapsulations(w, parts[..|parts| - 1]) + Encapsulation(w, |parts| == 1, parts[|parts| - 1])
  }

  function Encapsulation(w: Wording, first: bool, part: Part): string {
    (if first then "" else w.crlf) + (w.dashes + w.bound + w.crlf) + (part.headers + w.crlf) + part.content
  }

  function Multipart(w: Wording, parts: seq<Part>): string {
    Encapsulations(w, parts) + w.crlf + (w.dashes + w.bound + w.dashes + w.crlf)
  }

  function RangePart(job: Job, i: nat, input: string): Part
    requires job.Valid() && i < |job.ranges| && job.ranges[i].Good() && job.ranges[i].end < |input|
  {
    var r := job.ranges[i];
    Part(job.w.contType + job.contentType + job.w.crlf +
         job.w.contRange + Decimal(r.start) + "-" + Decimal(r.end) + "/" + Decimal(job.outputCl) + job.w.crlf,
         input[r.start..r.end + 1])
  }

  /** A part says which bytes it has, and of how many. */
  ghost predicate IsRangePart(part: Part, job: Job, i: nat, input: string)
    requires job.Valid() && i < |job.ranges| && job.ranges[i].Good() && job.ranges[i].end < |input|
  {
    var r := job.ranges[i];
    && part.content == input[r.start..r.end + 1]
    && exists first, last, length ::
         && Numeral(first, r.start) && Numeral(last, r.end) && Numeral(length, job.outputCl)
         && part.headers == HeaderLines(job, first, last, length)
  }

  function HeaderLines(job: Job, first: string, last: string, length: string): string {
    job.w.contType + job.contentType + job.w.crlf + job.w.contRange + first + "-" + last + "/" + length + job.w.crlf
  }

  lemma RangePartIsOne(job: Job, i: nat, input: string)
    requires job.Valid() && i < |job.ranges| && job.ranges[i].Good() && job.ranges[i].end < |input|
    ensures IsRangePart(RangePart(job, i, input), job, i, input)
  {
    var r := job.ranges[i];
    DecimalReads(r.start);
    DecimalReads(r.end);
    DecimalReads(job.outputCl);
    assert RangePart(job, i, input).headers == HeaderLines(job, Decimal(r.start), Decimal(r.end), Decimal(job.outputCl));
  }

  /** Bytes 10 to 19 of 100. */
  lemma NumbersExample()
    ensures Numbers(Range(10, 19), 100) == "10-19/100"
  {
    NumbersFit(Range(10, 19), 100);
    assert Decimal(1) == "1" && Decimal(10) == "10" && Decimal(19) == "19" && Decimal(100) == "100";
  }

  /** The parts of the good ranges among the first k, in order. */
  function GoodParts(job: Job, k: nat, input: string): seq<Part>
    requires job.Valid() && k <= |job.ranges| && Covers(job.ranges, k, input)
  {
    if k == 0 then []
    else if job.ranges[k - 1].Good() then GoodParts(job, k - 1, input) + [RangePart(job, k - 1, input)]
    else GoodParts(job, k - 1, input)
  }

  /** How many of the first k entries are good. */
  function GoodOnes(ranges: seq<Range>, k: nat): nat
    requires k <= |ranges|
  {
    if k == 0 then 0 else GoodOnes(ranges, k - 1) + if ranges[k - 1].Good() then 1 else 0
  }

  /** The parts are those of the good ranges, one each, in order. */
  lemma {:induction false} GoodPartsAre(job: Job, k: nat, input: string)
    requires job.Valid() && k <= |job.ranges| && Covers(job.ranges, k, input)
    ensures |GoodParts(job, k, input)| == GoodOnes(job.ranges, k)
    ensures forall i :: 0 <= i < k && job.ranges[i].Good() ==>
      && GoodOnes(job.ranges, i) < GoodOnes(job.ranges, k)
      && IsRangePart(GoodParts(job, k, input)[GoodOnes(job.ranges, i)], job, i, input)
  {
    if k > 0 {
      GoodPartsAre(job, k - 1, input);
      if job.ranges[k - 1].Good() {
        RangePartIsOne(job, k - 1, input);
      }
    }
  }

  /** One part for each good range, in order. */
  ghost predicate ArePartsOf(parts: seq<Part>, job: Job, input: string)
    requires job.Valid() && Covers(job.ranges, |job.ranges|, input)
  {
    && |parts| == GoodOnes(job.ranges, |job.ranges|)
    && forall i :: 0 <= i < |job.ranges| && job.ranges[i].Good() ==>
         && GoodOnes(job.ranges, i) < |parts|
         && IsRangePart(parts[GoodOnes(job.ranges, i)], job, i, input)
  }

  lemma OpenerIsEncapsulation(job: Job, i: nat, input: string)
    requires job.Valid() && 1 < |job.ranges| && i < |job.ranges| && job.ranges[i].Good() && job.ranges[i].end < |input|
    ensures Opener(job, i) + input[job.ranges[i].start..job.ranges[i].end + 1]
            == Encapsulation(job.w, i == 0, RangePart(job, i, input))
  {
    HeadersAreSubHeader(job, i, input);
    PlainBoundary(job.w);
  }

  lemma PlainBoundary(w: Wording)
    ensures Boundary(w, false) == w.dashes + w.bound + w.crlf
  {
    assert w.dashes + w.bound + "" == w.dashes + w.bound;
  }

  /** The header of a part, with the empty line after it, is what add_sub_header writes. */
  lemma HeadersAreSubHeader(job: Job, i: nat, input: string)
    requires job.Valid() && i < |job.ranges| && job.ranges[i].Good() && job.ranges[i].end < |input|
    ensures RangePart(job, i, input).headers + job.w.crlf
            == SubHeader(job.w, job.contentType, Numbers(job.ranges[i], job.outputCl))
  {
    var r := job.ranges[i];
    NumbersFit(r, job.outputCl);
    var front := job.w.contType + job.contentType + job.w.crlf + job.w.contRange;
    Regroup5(front, Decimal(r.start), "-", Decimal(r.end), "/", Decimal(job.outputCl));
  }

  lemma Regroup5(front: string, a: string, b: string, c: string, d: string, e: string)
    ensures front + (a + b + c + d + e) == front + a + b + c + d + e
  {
    Regroup(front, a + b + c + d, e);
    Regroup(front, a + b + c, d);
    Regroup(front, a + b, c);
    Regroup(front, a, b);
  }

  lemma EncapsulateOne(w: Wording, before: seq<Part>, part: Part)
    ensures Encapsulations(w, before + [part]) == Encapsulations(w, before) + Encapsulation(w, before == [], part)
  {
    assert (before + [part])[..|before|] == before;
  }

  lemma {:induction false} UptoIsEncapsulations(l: Layout, job: Job, k: nat, input: string)
    requires Frames(l, job) && 1 < |job.ranges| && k <= |job.ranges| && Covers(l.ranges, k, input)
    ensures Upto(l, k, input) == Encapsulations(job.w, GoodParts(job, k, input))
    ensures k == 0 <==> GoodParts(job, k, input) == []
  {
    hide Piece, Encapsulation, RangePart;
    hide Piece, Encapsulation, RangePart;
    if k > 0 {
      UptoIsEncapsulations(l, job, k - 1, input);
      UptoNext(l, job, k, input);
    }
  }

  lemma UptoNext(l: Layout, job: Job, k: nat, input: string)
    requires Frames(l, job) && 1 < |job.ranges| && 0 < k <= |job.ranges| && Covers(l.ranges, k, input)
    requires Upto(l, k - 1, input) == Encapsulations(job.w, GoodParts(job, k - 1, input))
    requires k == 1 <==> GoodParts(job, k - 1, input) == []
    ensures Upto(l, k, input) == Encapsulations(job.w, GoodParts(job, k, input)) && GoodParts(job, k, input) != []
  {
    hide Piece, Encapsulation, Encapsulations, RangePart;
    if job.ranges[k - 1].Good() {
      PieceIsEncapsulation(l, job, k - 1, input);
      EncapsulateOne(job.w, GoodParts(job, k - 1, input), RangePart(job, k - 1, input));
    } else {
      UptoBad(l, k - 1, input);
    }
  }

  lemma PieceIsEncapsulation(l: Layout, job: Job, i: nat, input: string)
    requires Frames(l, job) && 1 < |job.ranges| && i < |job.ranges| && job.ranges[i].Good() && Covers(l.ranges, i + 1, input)
    ensures Piece(l, i, input) == Encapsulation(job.w, i == 0, RangePart(job, i, input))
  {
    OpenersAt(job, |job.ranges|, i);
    OpenerIsEncapsulation(job, i, input);
  }

  /** Several entries: the body is the multipart message of the good ranges. */
  lemma SeveralRangesBody(l: Layout, job: Job, input: string)
    requires Frames(l, job) && 1 < |job.ranges| && Covers(l.ranges, |job.ranges|, input)
    ensures Body(l, input) == Multipart(job.w, GoodParts(job, |job.ranges|, input))
    ensures ArePartsOf(GoodParts(job, |job.ranges|, input), job, input)
  {
    GoodPartsAre(job, |job.ranges|, input);
    UptoIsEncapsulations(l, job, |job.ranges|, input);
    assert Closing(job) == job.w.crlf + (job.w.dashes + job.w.bound + job.w.dashes + job.w.crlf);
  }

  // ---- the announced length -----------------------------------------------------------------

  function BoundarySize(w: Wording): nat { 2 + |w.bound| + 2 }
  function SubHeaderSize(w: Wording): nat { |w.contType| + 2 + |w.contRange| + 4 }

  /** HttpSM::calculate_output_cl for several entries, the first k of them. */
  function CalculatedUpto(job: Job, k: nat): int
    requires job.Valid() && k <= |job.ranges|
  {
    if k == 0 then 0 else CalculatedUpto(job, k - 1) + CalculatedPiece(job, k - 1)
  }

  function CalculatedPiece(job: Job, i: nat): int
    requires job.Valid() && i < |job.ranges|
  {
    var r := job.ranges[i];
    if r.start >= 0 then
      BoundarySize(job.w) + SubHeaderSize(job.w) + |job.contentType| +
      NumChars(r.start) + NumChars(r.end) + NumChars(job.outputCl) + 2 + (r.end - r.start + 1) + 2
    else 0
  }

  function CalculatedOutputCl(job: Job): int
    requires job.Valid()
  {
    if |job.ranges| == 1 then job.ranges[0].end - job.ranges[0].start + 1
    else CalculatedUpto(job, |job.ranges|) + BoundarySize(job.w) + 2
  }

  lemma {:induction false} UptoLength(l: Layout, job: Job, k: nat, input: string)
    requires Frames(l, job) && 1 < |job.ranges| && k <= |job.ranges| && Covers(l.ranges, k, input)
    requires |job.w.crlf| == |job.w.dashes| == 2
    ensures |Upto(l, k, input)| == CalculatedUpto(job, k) - if k == 0 then 0 else 2
  {
    if k > 0 {
      UptoLength(l, job, k - 1, input);
      if job.ranges[k - 1].Good() {
        OpenersAt(job, |job.ranges|, k - 1);
        OpenerLength(job, k - 1);
      }
    }
  }

  lemma OpenerLength(job: Job, i: nat)
    requires job.Valid() && 1 < |job.ranges| && i < |job.ranges| && job.ranges[i].Good()
    requires |job.w.crlf| == |job.w.dashes| == 2
    ensures |Opener(job, i)| + (job.ranges[i].end - job.ranges[i].start + 1) == CalculatedPiece(job, i) - if i == 0 then 2 else 0
  {
    NumbersFit(job.ranges[i], job.outputCl);
  }

  /** The Content-Length computed before the transform starts is the length of what it writes. */
  lemma CalculatedLengthIsExact(l: Layout, job: Job, input: string)
    requires Frames(l, job) && job.w == WORDING && Covers(l.ranges, |job.ranges|, input)
    ensures |Body(l, input)| == CalculatedOutputCl(job)
  {
    if |job.ranges| == 1 {
      SingleRangeBody(l, job, input);
    } else {
      UptoLength(l, job, |job.ranges|, input);
    }
  }
}

module RangeTransforming {
  import opened RangeCutting
  import opened RangeFraming
  import opened Options

  class RangeTransform {
    const job: Job
    ghost const layout: Layout   // the text around each range
    const doneByte: array<int>   // _done_byte of each range record
    var current: nat             // m_current_range
    var done: int                // m_done
    var output: string           // m_output_buf
    var reader: string           // unread bytes of the write VIO
    var started: bool            // m_output_vio != nullptr
    var nbytes: Option<int>      // the length announced downstream, once it is final
    ghost var consumed: string   // bytes taken off the reader so far

    constructor (job: Job)
      requires job.Valid()
      ensures this.job == job && Framed() && Valid() && !started && consumed == "" && reader == ""
      ensures fresh(doneByte)
    {
      this.job := job;
      layout := Framing(job);
      doneByte := new int[|job.ranges|](i => -1);
      current, done, output, reader, started, nbytes, consumed := 0, 0, "", "", false, None, "";
    }

    ghost predicate Laid() { job.Valid() && layout.Valid() && layout.ranges == job.ranges }

    /** The texts of the layout are those of the job: fixed when the transform is made. */
    ghost predicate Framed() { Frames(layout, job) }

    predicate Finished()
      reads this
    {
      current == |job.ranges|
    }

    ghost predicate Valid()
      reads this, doneByte
    {
      && Laid() && doneByte.Length == |job.ranges| && current <= |job.ranges|
      && done == |output|
      && (forall j :: current < j < |job.ranges| ==> doneByte[j] == -1)
      && (!started ==> current == 0 && output == "" && consumed == "" && doneByte[0] == -1 && nbytes == None)
      && (started && !Finished() ==> Cutting())
      && (Finished() ==>
            && Covers(layout.ranges, |job.ranges|, consumed) && output == Body(layout, consumed)
            && nbytes == Some(|output|))
    }

    /** In the middle of range `current`. */
    ghost predicate Cutting()
      requires Laid() && doneByte.Length == |job.ranges| && current < |job.ranges|
      reads this, doneByte
    {
      var r := job.ranges[current];
      && r.Good() && Covers(layout.ranges, current, consumed)
      && doneByte[current] == |consumed| - 1 < r.end
      && output == Written(layout, current, consumed)
    }

    method Write(text: string)
      modifies this`output, this`done
      ensures output == old(output) + text && done == old(done) + |text|
    {
      output := output + text;
      done := done + |text|;
    }

    method AddBoundary(end: bool)
      modifies this`output, this`done
      ensures output == old(output) + Boundary(job.w, end) && done == old(done) + |Boundary(job.w, end)|
    {
      Write(job.w.dashes);
      Write(job.w.bound);
      if end {
        Write(job.w.dashes);
      }
      Write(job.w.crlf);
    }

    method AddSubHeader(index: nat)
      requires job.Valid() && index < |job.ranges| && job.ranges[index].Good()
      modifies this`output, this`done
      ensures var text := SubHeader(job.w, job.contentType, Numbers(job.ranges[index], job.outputCl));
        output == old(output) + text && done == old(done) + |text|
    {
      AddTypeLine();
      Write(job.w.contRange);
      var numbers := Numbers(job.ranges[index], job.outputCl);
      if |numbers| < RANGE_NUMBERS_LENGTH {
        Write(numbers);
      }
      Write(job.w.crlf + job.w.crlf);
      SubHeaderParts(old(output), job.w, job.contentType, numbers);
    }

    method AddTypeLine()
      modifies this`output, this`done
      ensures var text := job.w.contType + job.contentType + job.w.crlf;
        output == old(output) + text && done == old(done) + |text|
    {
      Write(job.w.contType);
      Write(job.contentType);
      Write(job.w.crlf);
      Regroup(old(output), job.w.contType + job.contentType, job.w.crlf);
      Regroup(old(output), job.w.contType, job.contentType);
    }

    /** As Valid while a range is being cut, but the current range may just have been completed. */
    ghost predicate Mid()
      reads this, doneByte
    {
      && Laid() && doneByte.Length == |job.ranges| && current < |job.ranges|
      && started && done == |output|
      && (forall j :: current < j < |job.ranges| ==> doneByte[j] == -1)
      && job.ranges[current].Good() && Covers(layout.ranges, current, consumed)
      && doneByte[current] == |consumed| - 1 <= job.ranges[current].end
      && output == Written(layout, current, consumed)
    }

    method Consume(n: nat)
      requires n <= |reader| && current < doneByte.Length
      modifies this`reader, this`consumed, doneByte
      ensures reader == old(reader)[n..] && consumed == old(consumed) + old(reader)[..n]
      ensures doneByte[current] == old(doneByte[current]) + n
      ensures forall j :: 0 <= j < doneByte.Length && j != current ==> doneByte[j] == old(doneByte[j])
    {
      consumed := consumed + reader[..n];
      reader := reader[n..];
      doneByte[current] := doneByte[current] + n;
    }

    /** Drops the bytes before the current range, as far as they have arrived. */
    method Skip()
      requires Mid() && doneByte[current] < job.ranges[current].end
      modifies this`reader, this`consumed, doneByte
      ensures Mid() && doneByte[current] < job.ranges[current].end
      ensures consumed + reader == old(consumed + reader) && |reader| <= old(|reader|)
      ensures doneByte[current] < job.ranges[current].start - 1 ==> reader == ""
      ensures |reader| == old(|reader|) || old(doneByte[current]) < job.ranges[current].start - 1
    {
      var start, avail := job.ranges[current].start, |reader|;
      if doneByte[current] < start - 1 {
        var toskip := start - doneByte[current] - 1;
        if toskip > avail {
          toskip := avail;
        }
        if toskip > 0 {
          WrittenSkips(layout, current, consumed, reader[..toskip]);
          Consume(toskip);
        }
      }
    }

    /** Copies the bytes of the current range, as far as they have arrived. */
    method Send()
      requires Mid() && doneByte[current] < job.ranges[current].end
      requires doneByte[current] >= job.ranges[current].start - 1 && |reader| > 0
      modifies this`reader, this`consumed, this`output, this`done, doneByte
      ensures Mid() && consumed + reader == old(consumed + reader) && |reader| < old(|reader|)
      ensures reader == "" || doneByte[current] == job.ranges[current].end
    {
      var tosend := job.ranges[current].end - doneByte[current];
      if tosend > |reader| {
        tosend := |reader|;
      }
      WrittenGrows(layout, current, consumed, reader[..tosend]);
      Write(reader[..tosend]);
      Consume(tosend);
    }

    method CloseBody()
      requires Framed() && done == |output|
      modifies this`output, this`done, this`nbytes
      ensures output == old(output) + layout.closing && done == |output| && nbytes == Some(done)
    {
      if |job.ranges| > 1 {
        Write(job.w.crlf);
        AddBoundary(true);
      }
      nbytes := Some(done);
    }

    /** The entries before `current` are out, the last good one of them being `good`. */
    ghost predicate Between(good: nat, prevEnd: int)
      reads this, doneByte
    {
      && Laid() && doneByte.Length == |job.ranges| && good <= current < |job.ranges|
      && started && done == |output|
      && (forall j :: current < j < |job.ranges| ==> doneByte[j] == -1)
      && job.ranges[good].Good() && job.ranges[good].end == prevEnd == |consumed| - 1
      && Covers(layout.ranges, current + 1, consumed) && output == Upto(layout, current + 1, consumed)
    }

    /** Opens the good range `current` after everything before it is out. */
    method OpenRange(prevEnd: int)
      requires Framed() && Laid() && doneByte.Length == |job.ranges| && 0 < current < |job.ranges| && job.ranges[current].Good()
      requires started && done == |output| && (forall j :: current < j < |job.ranges| ==> doneByte[j] == -1)
      requires prevEnd == |consumed| - 1 < job.ranges[current].start
      requires Covers(layout.ranges, current, consumed) && output == Upto(layout, current, consumed)
      modifies this`output, this`done, doneByte
      ensures Valid() && doneByte[current] == prevEnd
    {
      FrameRange();
      doneByte[current] := prevEnd;
    }

    method FrameRange()
      requires Framed() && 0 < current < |job.ranges| && job.ranges[current].Good()
      modifies this`output, this`done
      ensures output == old(output) + layout.openers[current] && done - |output| == old(done) - old(|output|)
    {
      Write(job.w.crlf);
      AddBoundary(false);
      AddSubHeader(current);
      OpenersAt(job, |job.ranges|, current);
    }

    /** The entries before `current` are out, and `current` may be past the last. */
    ghost predicate Out(prevEnd: int)
      reads this, doneByte
    {
      && Laid() && doneByte.Length == |job.ranges| && 0 < current <= |job.ranges|
      && started && done == |output|
      && (forall j :: current <= j < |job.ranges| ==> doneByte[j] == -1)
      && prevEnd == |consumed| - 1
      && Covers(layout.ranges, current, consumed) && output == Upto(layout, current, consumed)
    }

    /** The last entry is out: the closing boundary is written and the length announced. */
    method Finish(prevEnd: int)
      requires Framed() && Out(prevEnd) && current == |job.ranges|
      modifies this`output, this`done, this`nbytes
      ensures Valid() && started
    {
      CloseBody();
    }

    /** The next entry is a good one, which is opened. */
    method Enter(prevEnd: int)
      requires Framed() && Out(prevEnd) && current < |job.ranges| && job.ranges[current].Good()
      requires prevEnd < job.ranges[current].start
      modifies this`output, this`done, doneByte
      ensures Valid() && started
    {
      OpenRange(prevEnd);
    }

    /** One entry further.  A bad entry (-1/-1) counts as completed at once; a good one is opened;
        after the last the closing boundary is written and the length announced. */
    method NextEntry(ghost good: nat, prevEnd: int) returns (more: bool)
      requires Framed() && Between(good, prevEnd)
      modifies this`current, this`output, this`done, this`nbytes, doneByte
      ensures current == old(current) + 1
      ensures more ==> Between(good, prevEnd) && doneByte[current] == job.ranges[current].end
      ensures !more ==> Valid() && started
    {
      hide Body, Upto, Written;
      current := current + 1;
      if current == |job.ranges| {
        Finish(prevEnd);
        return false;
      }
      if job.ranges[current].end != -1 {
        Enter(prevEnd);
        return false;
      }
      UptoBad(layout, current, consumed);
      more := doneByte[current] == job.ranges[current].end;
    }

    /** Leaves a completed range. */
    method NextRange(prevEnd: int)
      requires Framed() && Mid() && (doneByte[current] == job.ranges[current].end ==> prevEnd == job.ranges[current].end)
      modifies this`current, this`output, this`done, this`nbytes, doneByte
      ensures Valid() && started
    {
      var more := doneByte[current] == job.ranges[current].end;
      ghost var good := current;
      if more {
        WrittenWhole(layout, current, consumed);
      }
      while more
        invariant if more then Between(good, prevEnd) else Valid() && started
        decreases |job.ranges| - current, more
      {
        more := NextEntry(good, prevEnd);
      }
    }

    /** transform_to_range.  Every repeat of the loop consumes at least one byte. */
    method TransformToRange()
      requires Framed() && Valid() && started && !Finished()
      modifies this, doneByte
      ensures Valid() && started
      ensures consumed + reader == old(consumed + reader) && |reader| <= old(|reader|)
      ensures !Finished() ==> reader == ""
    {
      hide Body, Upto, Written;
      var prevEnd := 0;
      while true
        invariant Valid() && started && !Finished()
        invariant consumed + reader == old(consumed + reader) && |reader| <= old(|reader|)
        decreases |reader|
      {
        Skip();
        if |reader| > 0 {
          Send();
        }
        if doneByte[current] == job.ranges[current].end {
          prevEnd := job.ranges[current].end;
        }
        NextRange(prevEnd);
        if Finished() {
          return;
        }
        if |reader| == 0 {
          break;
        }
      }
    }

    /** Once the bytes of every range have been consumed the transform has finished. */
    lemma EnoughInput()
      requires Valid()
      ensures Covers(job.ranges, |job.ranges|, consumed) ==> Finished()
    {
    }

    /** The first event sets up the output and opens the first range. */
    method Start()
      requires Framed() && Valid() && !started
      modifies this`started, this`output, this`done
      ensures Valid() && started && !Finished()
    {
      started := true;
      if |job.ranges| > 1 {
        AddBoundary(false);
        AddSubHeader(current);
      }
      OpenersAt(job, |job.ranges|, 0);
      assert output == Opener(job, 0);
    }

    /** handle_event for the events that carry data.  `attached` is false once the upstream has
        shut its side; then the length so far is what is announced. */
    method HandleEvent(hit: bool, attached: bool)
      requires Framed() && Valid() && !Finished()
      modifies this, doneByte
      ensures Valid() && started
      ensures consumed + reader == old(consumed + reader)
      ensures hit && attached && !Finished() ==> reader == ""
      ensures !hit || !attached ==> reader == old(reader) && !Finished()
      ensures hit && !attached ==> nbytes == Some(|output|)
    {
      hide Body, Upto, Written;
      if !started {
        Start();
      }
      if !hit {
        return;
      }
      if !attached {
        nbytes := Some(done);
        return;
      }
      TransformToRange();
    }

    /** The upstream appends a chunk to the buffer that is read here; the lock is missed any
        number of times before the chunk is looked at. */
    method Chunk(chunk: string, misses: nat)
      requires Framed() && Valid() && !Finished() && reader == ""
      modifies this, doneByte
      ensures Valid() && consumed + reader == old(consumed) + chunk
      ensures !Finished() ==> reader == ""
    {
      hide Body, Upto, Written;
      reader := reader + chunk;
      for i := 0 to misses
        invariant Valid() && !Finished() && consumed + reader == old(consumed) + chunk
      {
        HandleEvent(false, true);
      }
      HandleEvent(true, true);
    }

    /** Chunks keep coming until the transform says that it needs no more. */
    method Feed(chunks: seq<string>) returns (i: nat)
      requires Framed() && Valid() && !Finished() && consumed == "" && reader == ""
      modifies this, doneByte
      ensures Valid() && i <= |chunks| && consumed + reader == Concat(chunks[..i])
      ensures Finished() || (i == |chunks| && reader == "")
    {
      hide Body, Upto, Written;
      i := 0;
      while i < |chunks| && !Finished()
        invariant Valid() && i <= |chunks| && consumed + reader == Concat(chunks[..i])
        invariant !Finished() ==> reader == ""
      {
        var misses: nat := *;
        Chunk(chunks[i], misses);
        ConcatNext(chunks, i);
        i := i + 1;
      }
    }
  }

  function Concat(chunks: seq<string>): string {
    if chunks == [] then "" else Concat(chunks[..|chunks| - 1]) + chunks[|chunks| - 1]
  }

  lemma ConcatNext(chunks: seq<string>, i: nat)
    requires i < |chunks|
    ensures Concat(chunks[..i + 1]) == Concat(chunks[..i]) + chunks[i]
  {
    assert chunks[..i + 1][..i] == chunks[..i];
  }

  lemma {:induction false} ConcatPrefix(chunks: seq<string>, i: nat)
    requires i <= |chunks|
    ensures Concat(chunks[..i]) <= Concat(chunks)
  {
    if i == |chunks| {
      assert chunks[..i] == chunks;
    } else {
      var init := chunks[..|chunks| - 1];
      ConcatPrefix(init, i);
      assert init[..i] == chunks[..i];
    }
  }

  /** The body of a prefix that covers the ranges is the body of the whole. */
  lemma BodyOfPrefix(l: Layout, prefix: string, input: string)
    requires l.Valid() && Covers(l.ranges, |l.ranges|, prefix) && prefix <= input
    ensures Covers(l.ranges, |l.ranges|, input) && Body(l, input) == Body(l, prefix)
  {
    assert input == prefix + input[|prefix|..];
    BodyStable(l, prefix, input[|prefix|..]);
  }

  lemma PrefixIsEnough(l: Layout, chunks: seq<string>, i: nat, consumed: string, rest: string)
    requires i <= |chunks| && consumed + rest == Concat(chunks[..i])
    requires l.Valid() && Covers(l.ranges, |l.ranges|, consumed) && Covers(l.ranges, |l.ranges|, Concat(chunks))
    ensures Body(l, Concat(chunks)) == Body(l, consumed)
  {
    ConcatPrefix(chunks, i);
    BodyOfPrefix(l, consumed, Concat(chunks));
  }

  /** The bytes of the one range, or a multipart message with a part for each good range, in order. */
  ghost predicate IsResponse(output: string, job: Job, input: string)
    requires job.Valid() && Covers(job.ranges, |job.ranges|, input)
  {
    if |job.ranges| == 1 then output == input[job.ranges[0].start..job.ranges[0].end + 1]
    else exists parts :: ArePartsOf(parts, job, input) && output == Multipart(job.w, parts)
  }

  lemma BodyIsResponse(job: Job, input: string)
    requires job.Valid() && Covers(job.ranges, |job.ranges|, input)
    ensures IsResponse(Body(Framing(job), input), job, input)
    ensures job.w == WORDING ==> |Body(Framing(job), input)| == CalculatedOutputCl(job)
  {
    var l := Framing(job);
    if |job.ranges| == 1 {
      SingleRangeBody(l, job, input);
    } else {
      SeveralRangesBody(l, job, input);
    }
    if job.w == WORDING {
      CalculatedLengthIsExact(l, job, input);
    }
  }

  /** A whole response: however the input is cut into chunks, and however often a lock is missed
      in between, the body is the same function of the input, and its true length is announced. */
  method Respond(job: Job, chunks: seq<string>) returns (output: string, announced: Option<int>)
    requires job.Valid() && Covers(job.ranges, |job.ranges|, Concat(chunks))
    ensures output == Body(Framing(job), Concat(chunks))
    ensures announced == Some(|output|)
    ensures IsResponse(output, job, Concat(chunks))
    ensures job.w == WORDING ==> |output| == CalculatedOutputCl(job)
  {
    var t := new RangeTransform(job);
    var i := t.Feed(chunks);
    if i == |chunks| {
      assert chunks[..i] == chunks;
    }
    t.EnoughInput();
    PrefixIsEnough(t.layout, chunks, i, t.consumed, t.reader);
    output, announced := t.output, t.nbytes;
    BodyIsResponse(job, Concat(chunks));
  }
}
