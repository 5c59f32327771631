/** The HTTP range exchange between two nodes: the request line one prints and
    the other parses, the clamped 206 the server answers, and the client's check
    of what came back (RFC 9110 sections 14.1.2, 14.4, 15.3.7 and 15.5.17). */
module RangeExchange {
  import opened Pieces
  import opened Text

  /** Inclusive on both ends. */
  datatype Range = Range(start: nat, end: nat)

  datatype ContentRange = ContentRange(start: nat, end: nat, complete: nat)

  function Lower(c: char): char { if 'A' <= c <= 'Z' then (c as int + 32) as char else c }

  /** `startsWithIgnoreCase`. */
  predicate StartsFold(s: string, p: string) {
    |s| >= |p| && forall k :: 0 <= k < |p| ==> Lower(s[k]) == Lower(p[k])
  }

  function ParseRange(h: string): Option<Range> {
    var s := Trim(h, Blank);
    if !StartsFold(s, "bytes=") then None
    else
      var body := s[6..];
      match Find(body, '-')
      case None => None
      case Some(dash) =>
        var a := ParseU64(body[..dash]);
        var b := if |body| == dash + 1 then Some(U64_MAX) else ParseU64(body[dash + 1..]);
        if a.None? || b.None? || b.value < a.value then None else Some(Range(a.value, b.value))
  }

  function ParseContentRange(h: string): Option<ContentRange> {
    var s := Trim(h, Blank);
    if !StartsFold(s, "bytes ") then None else ParseWindow(s[6..])
  }

  /** `start-end/complete`. */
  function ParseWindow(body: string): Option<ContentRange> {
    match Find(body, '-')
    case None => None
    case Some(dash) =>
      var rest := body[dash + 1..];
      match Find(rest, '/')
      case None => None
      case Some(slash) => Window(ParseU64(body[..dash]), ParseU64(rest[..slash]), rest[slash + 1..])
  }

  function Window(a: Option<nat>, b: Option<nat>, complete: string): Option<ContentRange> {
    if a.None? || b.None? || b.value < a.value then None
    else if complete == "*" then Some(ContentRange(a.value, b.value, U64_MAX))
    else
      match ParseU64(complete)
      case None => None
      case Some(n) => if b.value >= n then None else Some(ContentRange(a.value, b.value, n))
  }

  function SatAdd(a: nat, b: nat): nat { Min(a + b, U64_MAX) }

  function SatSub(a: nat, b: nat): nat { if a < b then 0 else a - b }

  /** `rg_end -| rg.start +| 1`. */
  function Want(start: nat, end: nat): nat { SatAdd(SatSub(end, start), 1) }

  datatype Reply =
    | NotSatisfiable(contentRange: string)
    | Partial(contentRange: string, contentLength: string)

  function RangeHeader(a: nat, b: nat, complete: string): string {
    "bytes " + (Print(a) + "-" + (Print(b) + "/" + complete))
  }

  /** `serveData` up to its header. */
  function Serve(size: nat, rg: Range): Reply {
    if rg.start >= size || rg.end < rg.start then NotSatisfiable("bytes */" + Print(size))
    else
      var end := Min(rg.end, size - 1);
      Partial(RangeHeader(rg.start, end, Print(size)), Print(Want(rg.start, end)))
  }

  /** The `Range` header of `sendRequest`. */
  function Request(rg: Range): string { "bytes=" + (Print(rg.start) + "-" + Print(rg.end)) }

  datatype Verdict =
    | Accepted
    | MissingContentRange | BadContentRange | RangeMismatch
    | BadContentLength | LengthMismatch

  /** `checkRangeReply` on a 206 whose two headers were found or not. */
  function Check(contentRange: Option<string>, contentLength: Option<string>, asked: Range): Verdict {
    if contentRange.None? then MissingContentRange
    else
      match ParseContentRange(contentRange.value)
      case None => BadContentRange
      case Some(r) =>
        if r.start != asked.start || r.end < asked.start || r.end > asked.end then RangeMismatch
        else
          match ParseU64(if contentLength.Some? then contentLength.value else "0")
          case None => BadContentLength
          case Some(n) => if n != Want(r.start, r.end) then LengthMismatch else Accepted
  }

  /* ---- printing and parsing ---- */

  lemma DigitsLackMarks(s: string)
    requires Digits(s)
    ensures '-' !in s && '/' !in s && '*' !in s && (s != [] ==> !Blank(s[0]) && !Blank(s[|s| - 1]))
  {
    if s != [] {
      assert IsDigit(s[0]) && IsDigit(s[|s| - 1]);
    }
  }

  lemma Split(a: string, c: char, b: string)
    requires c !in a
    ensures var s := a + [c] + b; Find(s, c) == Some(|a|) && s[..|a|] == a && s[|a| + 1..] == b
  {
    FindSplit(a, c, b);
  }

  lemma Unwrap(pre: string, unit: string, body: string, post: string, u: string)
    requires All(pre, Blank) && All(post, Blank) && |unit| == |u| == 6 && StartsFold(unit, u) && Lower(u[0]) == 'b'
    requires body != [] && !Blank(body[|body| - 1])
    ensures var s := Trim(pre + unit + body + post, Blank); s == unit + body && StartsFold(s, u) && s[6..] == body
  {
    var s := unit + body;
    assert Lower(unit[0]) == Lower(u[0]);
    assert pre + unit + body + post == pre + s + post;
    TrimDrops(pre, s, post, Blank);
  }

  lemma NotStar(s: string)
    requires Digits(s)
    ensures s != "*"
  {
    assert s != [] ==> s[0] in s;
  }

  /** A request is read back whatever blanks surround it and however the unit is
      capitalised. */
  lemma RangeReadsBack(pre: string, unit: string, a: nat, b: nat, post: string)
    requires All(pre, Blank) && All(post, Blank) && |unit| == 6 && StartsFold(unit, "bytes=")
    requires a <= U64_MAX && b <= U64_MAX
    ensures ParseRange(pre + unit + (Print(a) + "-" + Print(b)) + post) == if a <= b then Some(Range(a, b)) else None
    ensures ParseRange(pre + unit + (Print(a) + "-") + post) == Some(Range(a, U64_MAX))
  {
    DigitsLackMarks(Print(a));
    DigitsLackMarks(Print(b));
    PrintParses(a);
    PrintParses(b);
    var body := Print(a) + "-" + Print(b);
    Unwrap(pre, unit, body, post, "bytes=");
    Split(Print(a), '-', Print(b));
    var open := Print(a) + "-";
    Unwrap(pre, unit, open, post, "bytes=");
    Split(Print(a), '-', "");
    assert Print(a) + ['-'] + "" == open;
  }

  lemma WindowReadsBack(a: nat, b: nat, complete: string)
    requires a <= U64_MAX && b <= U64_MAX
    ensures ParseWindow(Print(a) + "-" + (Print(b) + "/" + complete)) == Window(Some(a), Some(b), complete)
  {
    DigitsLackMarks(Print(a));
    DigitsLackMarks(Print(b));
    PrintParses(a);
    PrintParses(b);
    Split(Print(a), '-', Print(b) + "/" + complete);
    Split(Print(b), '/', complete);
  }

  lemma ContentRangeReadsBack(a: nat, b: nat, complete: string)
    requires a <= U64_MAX && b <= U64_MAX && complete != [] && !Blank(complete[|complete| - 1])
    ensures ParseContentRange(RangeHeader(a, b, complete)) == Window(Some(a), Some(b), complete)
  {
    var body := Print(a) + "-" + (Print(b) + "/" + complete);
    WindowReadsBack(a, b, complete);
    assert body[|body| - 1] == complete[|complete| - 1];
    UnitComesOff(body);
  }

  lemma UnitComesOff(body: string)
    requires body != [] && !Blank(body[|body| - 1])
    ensures ParseContentRange("bytes " + body) == ParseWindow(body)
  {
    var u := "bytes ";
    assert u + body == "" + u + body + "";
    Unwrap("", u, body, "", u);
  }

  /* ---- the exchange ---- */

  lemma RequestReadsBack(asked: Range)
    requires asked.start <= asked.end <= U64_MAX
    ensures ParseRange(Request(asked)) == Some(asked)
  {
    RangeReadsBack("", "bytes=", asked.start, asked.end, "");
    assert Request(asked) == "" + "bytes=" + (Print(asked.start) + "-" + Print(asked.end)) + "";
  }

  /** The server reads exactly the range the client asked for, and for every file
      size its clamped answer passes the client's check. */
  lemma ServedIsAccepted(size: nat, asked: Range)
    requires size <= U64_MAX && asked.start <= asked.end <= U64_MAX
    ensures ParseRange(Request(asked)) == Some(asked)
    ensures Serve(size, asked).Partial? <==> asked.start < size
    ensures var r := Serve(size, asked);
      r.Partial? ==> Check(Some(r.contentRange), Some(r.contentLength), asked) == Accepted
  {
    RequestReadsBack(asked);
    if asked.start < size {
      var end := Min(asked.end, size - 1);
      DigitsLackMarks(Print(size));
      NotStar(Print(size));
      PrintParses(size);
      ContentRangeReadsBack(asked.start, end, Print(size));
      PrintParses(Want(asked.start, end));
    }
  }

  predicate Asked(asked: Range, i: nat) { asked.start <= i <= asked.end }

  /** The bytes of the file that were asked for. */
  function AskedBytes(size: nat, asked: Range): set<nat> { set i: nat | i < size && Asked(asked, i) }

  lemma {:induction false} AskedCount(size: nat, asked: Range)
    ensures |AskedBytes(size, asked)| ==
            var end := Min(size, asked.end + 1); if end <= asked.start then 0 else end - asked.start
  {
    if size > 0 {
      AskedCount(size - 1, asked);
      assert AskedBytes(size, asked) == AskedBytes(size - 1, asked) + if Asked(asked, size - 1) then {size - 1} else {};
    }
  }

  /** The reply's own text names all bytes of the file that were asked for and no
      others, and announces their number; or it says that there is none, and how long
      the file is. */
  ghost predicate SaysTheClip(size: nat, asked: Range, r: Reply) {
    match r
    case Partial(window, length) =>
      && ParseContentRange(window).Some? && ParseU64(length) == Some(|AskedBytes(size, asked)|)
      && var w := ParseContentRange(window).value;
         && w.complete == size
         && forall i: nat {:trigger Asked(asked, i)} :: i < size && Asked(asked, i) <==> w.start <= i <= w.end
    case NotSatisfiable(text) =>
      |text| >= 8 && text[..8] == "bytes */" && ParseU64(text[8..]) == Some(size)
  }

  lemma HeaderSays(a: nat, b: nat, size: nat)
    requires a <= b < size <= U64_MAX
    ensures ParseContentRange(RangeHeader(a, b, Print(size))) == Some(ContentRange(a, b, size))
    ensures ParseU64(Print(Want(a, b))) == Some(b - a + 1)
  {
    DigitsLackMarks(Print(size));
    PrintParses(size);
    ContentRangeReadsBack(a, b, Print(size));
    NumericWindow(a, b, size);
    PrintParses(b - a + 1);
  }

  lemma WindowIsTheClip(size: nat, asked: Range, window: string, length: string, end: nat)
    requires asked.start <= asked.end && asked.start < size && end == Min(asked.end, size - 1)
    requires ParseContentRange(window) == Some(ContentRange(asked.start, end, size))
    requires ParseU64(length) == Some(end - asked.start + 1)
    ensures SaysTheClip(size, asked, Partial(window, length))
  {
    AskedCount(size, asked);
  }

  lemma WindowSays(size: nat, asked: Range)
    requires asked.start <= asked.end && asked.start < size <= U64_MAX
    ensures Serve(size, asked).Partial? && SaysTheClip(size, asked, Serve(size, asked))
  {
    var end := Min(asked.end, size - 1);
    HeaderSays(asked.start, end, size);
    WindowIsTheClip(size, asked, RangeHeader(asked.start, end, Print(size)), Print(Want(asked.start, end)), end);
  }

  lemma RefusalSays(size: nat, asked: Range)
    requires size <= U64_MAX && (size <= asked.start || asked.end < asked.start)
    ensures Serve(size, asked).NotSatisfiable? && SaysTheClip(size, asked, Serve(size, asked))
  {
    PrintParses(size);
    assert ("bytes */" + Print(size))[8..] == Print(size);
  }

  /** What the server answers: a window exactly if the file holds a byte that was asked
      for, and in either case the clip of the request to the file. */
  lemma ServedIsTheClip(size: nat, asked: Range)
    requires size <= U64_MAX
    ensures Serve(size, asked).Partial? <==> exists i: nat :: i < size && Asked(asked, i)
    ensures SaysTheClip(size, asked, Serve(size, asked))
  {
    if asked.start < size && asked.start <= asked.end {
      assert Asked(asked, asked.start);
      WindowSays(size, asked);
    } else {
      RefusalSays(size, asked);
    }
  }

  /** The check, once both headers are parsed. */
  lemma CheckParsed(cr: string, cl: string, asked: Range, r: Option<ContentRange>, n: nat)
    requires ParseContentRange(cr) == r && ParseU64(cl) == Some(n)
    ensures Check(Some(cr), Some(cl), asked) == Accepted
            <==> r.Some? && r.value.start == asked.start && asked.start <= r.value.end <= asked.end &&
                 n == Want(r.value.start, r.value.end)
  {
  }

  lemma NumericWindow(a: nat, b: nat, complete: nat)
    requires complete <= U64_MAX
    ensures Window(Some(a), Some(b), Print(complete)) ==
            if a <= b < complete then Some(ContentRange(a, b, complete)) else None
  {
    DigitsLackMarks(Print(complete));
    NotStar(Print(complete));
    PrintParses(complete);
  }

  /** An accepted reply is a window that starts where the client asked, ends no
      later, and has as many bytes as announced; nothing else is accepted. */
  lemma AcceptedIsTheWindow(a: nat, b: nat, complete: nat, n: nat, asked: Range)
    requires a <= U64_MAX && b <= U64_MAX && complete <= U64_MAX && n <= U64_MAX
    ensures Check(Some(RangeHeader(a, b, Print(complete))), Some(Print(n)), asked) == Accepted
            <==> a == asked.start && a <= b <= asked.end && b < complete && n == b - a + 1
  {
    DigitsLackMarks(Print(complete));
    ContentRangeReadsBack(a, b, Print(complete));
    NumericWindow(a, b, complete);
    PrintParses(n);
    CheckParsed(RangeHeader(a, b, Print(complete)), Print(n), asked, Window(Some(a), Some(b), Print(complete)), n);
  }

  lemma UnknownWindow(a: nat, b: nat)
    ensures Window(Some(a), Some(b), "*") == if a <= b then Some(ContentRange(a, b, U64_MAX)) else None
  {
  }

  /** What the check asks of the announced length. */
  lemma WantIs(a: nat, b: nat)
    requires a <= b <= U64_MAX
    ensures Want(a, b) == if a == 0 && b == U64_MAX then U64_MAX else b - a + 1
  {
  }

  /** With an unknown complete length the same holds but for one window: all 2^64
      bytes, whose length saturates to 2^64 - 1. */
  lemma AcceptedUnknownLength(a: nat, b: nat, n: nat, asked: Range)
    requires a <= U64_MAX && b <= U64_MAX && n <= U64_MAX
    ensures Check(Some(RangeHeader(a, b, "*")), Some(Print(n)), asked) == Accepted
            <==> a == asked.start && a <= b <= asked.end && n == if a == 0 && b == U64_MAX then U64_MAX else b - a + 1
  {
    PrintParses(n);
    ContentRangeReadsBack(a, b, "*");
    UnknownWindow(a, b);
    if a <= b {
      WantIs(a, b);
    }
    CheckParsed(RangeHeader(a, b, "*"), Print(n), asked, if a <= b then Some(ContentRange(a, b, U64_MAX)) else None, n);
  }

  /** Whatever text a peer sends, acceptance means the parsed window is the one
      asked for, its end clipped at most, and the announced length is its own; only
      the window of all 2^64 bytes announces one less than it names. */
  lemma AcceptedMeans(contentRange: Option<string>, contentLength: Option<string>, asked: Range)
    requires Check(contentRange, contentLength, asked) == Accepted
    ensures contentRange.Some? && contentLength.Some?
    ensures ParseContentRange(contentRange.value).Some? && ParseU64(contentLength.value).Some?
    ensures var r, n := ParseContentRange(contentRange.value).value, ParseU64(contentLength.value).value;
      && r.start == asked.start && r.end <= asked.end && n > 0
      && r.start + n == (if r.start == 0 && r.end == U64_MAX then U64_MAX else r.end + 1)
      && (r.end < r.complete || r.end == U64_MAX == r.complete)
  {
    assert Value("0") == 0 by { assert "0"[..0] == ""; }
  }
}
