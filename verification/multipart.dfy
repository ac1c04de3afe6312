/** The multipart/form-data encoder, and a parser of section 5.1.1 of RFC 2046 and section 4 of RFC 7578 to read it
    back. Octets are written as characters. */
module Multipart {
  import opened Prelude

  type Octets = string

  datatype Part =
    | Text(name: Octets, value: Octets)
    | File(name: Octets, filename: Octets, contentType: Octets, data: Octets)
    | Blob(name: Octets, contentType: Octets, data: Octets)

  const CRLF: Octets := "\r\n"
  const QUOTE: Octets := "\""
  const NAME: Octets := "Content-Disposition: form-data; name=\""
  const FILENAME: Octets := "; filename=\""
  const TYPE: Octets := "Content-Type: "

  // ------------------------------------------------------------- what is written

  function Disposition(name: Octets, filename: Option<Octets>): Octets {
    NAME + name + QUOTE + if filename.Some? then FILENAME + filename.value + QUOTE else ""
  }

  function FilenameOf(p: Part): Option<Octets> {
    if p.File? then Some(p.filename) else None
  }

  function TypeHeader(p: Part): Octets {
    if p.Text? then "" else TYPE + p.contentType + CRLF
  }

  /** The header lines, each with its line end. */
  function Headers(p: Part): Octets {
    Disposition(p.name, FilenameOf(p)) + CRLF + TypeHeader(p)
  }

  function Content(p: Part): Octets {
    match p
    case Text(_, value) => value
    case File(_, _, _, data) => data
    case Blob(_, _, data) => data
  }

  function PartOctets(boundary: Octets, p: Part): Octets {
    ("--" + boundary + CRLF) + Headers(p) + (CRLF + Content(p) + CRLF)
  }

  function Encoding(boundary: Octets, parts: seq<Part>): Octets {
    if parts == [] then "--" + boundary + "--" + CRLF
    else PartOctets(boundary, parts[0]) + Encoding(boundary, parts[1..])
  }

  method WriteDisposition(buf: Octets, name: Octets, filename: Option<Octets>) returns (out: Octets)
    ensures out == buf + (Disposition(name, filename) + CRLF)
  {
    out := buf + NAME;
    out := out + name;
    out := out + QUOTE;
    if filename.Some? {
      out := out + FILENAME;
      out := out + filename.value;
      out := out + QUOTE;
    }
    out := out + CRLF;
  }

  method WriteHeaders(buf: Octets, part: Part) returns (out: Octets)
    ensures out == buf + Headers(part)
  {
    match part {
      case Text(name, _) =>
        out := WriteDisposition(buf, name, None);
        Regroup(buf, Disposition(name, None) + CRLF, "");
      case File(name, filename, contentType, _) =>
        out := WriteDisposition(buf, name, Some(filename));
        out := out + (TYPE + contentType + CRLF);
        Regroup(buf, Disposition(name, Some(filename)) + CRLF, TYPE + contentType + CRLF);
      case Blob(name, contentType, _) =>
        out := WriteDisposition(buf, name, None);
        out := out + (TYPE + contentType + CRLF);
        Regroup(buf, Disposition(name, None) + CRLF, TYPE + contentType + CRLF);
    }
  }

  lemma Regroup(a: Octets, b: Octets, c: Octets)
    ensures a + b + c == a + (b + c) && a + "" == a
  {
  }

  method WriteOpening(buf: Octets, boundary: Octets) returns (out: Octets)
    ensures out == buf + ("--" + boundary + CRLF)
  {
    out := buf + "--";
    out := out + boundary;
    out := out + CRLF;
  }

  method WriteContent(buf: Octets, part: Part) returns (out: Octets)
    ensures out == buf + (CRLF + Content(part) + CRLF)
  {
    out := buf + CRLF;
    out := out + Content(part);
    out := out + CRLF;
  }

  method WritePart(buf: Octets, boundary: Octets, part: Part) returns (out: Octets)
    ensures out == buf + PartOctets(boundary, part)
  {
    out := WriteOpening(buf, boundary);
    out := WriteHeaders(out, part);
    out := WriteContent(out, part);
    WrittenInTurn(buf, "--" + boundary + CRLF, Headers(part), CRLF + Content(part) + CRLF);
  }

  lemma WrittenInTurn(buf: Octets, first: Octets, second: Octets, third: Octets)
    ensures buf + first + second + third == buf + (first + second + third)
  {
  }

  method Encode(boundary: Octets, parts: seq<Part>) returns (buf: Octets)
    ensures buf == Encoding(boundary, parts)
  {
    buf := "";
    for i := 0 to |parts|
      invariant buf + Encoding(boundary, parts[i..]) == Encoding(boundary, parts)
    {
      FirstPart(buf, boundary, parts[i..]);
      assert parts[i..][1..] == parts[i + 1..];
      buf := WritePart(buf, boundary, parts[i]);
    }
    buf := WriteEnd(buf, boundary);
  }

  lemma FirstPart(buf: Octets, boundary: Octets, parts: seq<Part>)
    requires parts != []
    ensures buf + Encoding(boundary, parts)
            == (buf + PartOctets(boundary, parts[0])) + Encoding(boundary, parts[1..])
  {
  }

  method WriteEnd(buf: Octets, boundary: Octets) returns (out: Octets)
    ensures out == buf + Encoding(boundary, [])
  {
    out := buf + "--";
    out := out + boundary;
    out := out + "--";
    out := out + CRLF;
  }

  // ------------------------------------------------------------- finding a pattern

  predicate At(s: Octets, pattern: Octets, i: int) {
    0 <= i <= i + |pattern| <= |s| && s[i..i + |pattern|] == pattern
  }

  ghost predicate Occurs(pattern: Octets, s: Octets) {
    exists i :: At(s, pattern, i)
  }

  /** The first occurrence from a position on. */
  function IndexFrom(s: Octets, pattern: Octets, from: nat): (r: Option<nat>)
    ensures r.Some? ==> from <= r.value && r.value + |pattern| <= |s|
    decreases |s| - from
  {
    if from + |pattern| > |s| then None
    else if At(s, pattern, from) then Some(from)
    else IndexFrom(s, pattern, from + 1)
  }

  lemma {:induction false} FirstFrom(s: Octets, pattern: Octets, from: nat)
    ensures var r := IndexFrom(s, pattern, from);
            && (r.Some? ==> At(s, pattern, r.value))
            && forall j :: from <= j && At(s, pattern, j) ==> r.Some? && r.value <= j
    decreases |s| - from
  {
    if from + |pattern| <= |s| && !At(s, pattern, from) {
      FirstFrom(s, pattern, from + 1);
    }
  }

  function Index(s: Octets, pattern: Octets): Option<nat> {
    IndexFrom(s, pattern, 0)
  }

  /** No occurrence of the pattern can overlap another. */
  predicate Unbordered(pattern: Octets) {
    |pattern| > 0 && pattern[0] !in pattern[1..]
  }

  /** The index found is that of the first occurrence, and one is found if there is any. */
  lemma IndexIsFirst(s: Octets, pattern: Octets)
    ensures Index(s, pattern).Some? <==> Occurs(pattern, s)
    ensures Index(s, pattern).Some? ==> At(s, pattern, Index(s, pattern).value)
    ensures forall j :: At(s, pattern, j) ==> Index(s, pattern).Some? && Index(s, pattern).value <= j
  {
    FirstFrom(s, pattern, 0);
  }

  lemma AtShifts(x: Octets, s: Octets, pattern: Octets, i: nat)
    ensures At(s, pattern, i) <==> At(x + s, pattern, |x| + i)
  {
    if i + |pattern| <= |s| {
      assert (x + s)[|x| + i..|x| + i + |pattern|] == s[i..i + |pattern|];
    }
  }

  lemma AtWithin(x: Octets, s: Octets, pattern: Octets, i: nat)
    requires i + |pattern| <= |x|
    ensures At(x + s, pattern, i) <==> At(x, pattern, i)
  {
    assert (x + s)[i..i + |pattern|] == x[i..i + |pattern|];
  }

  lemma OverlapRepeatsTheHead(x: Octets, pattern: Octets, rest: Octets, i: nat)
    requires At(x + pattern + rest, pattern, i) && i < |x| < i + |pattern|
    ensures pattern[0] in pattern[1..]
  {
    var s, k := x + pattern + rest, |x| - i;
    assert s[i..i + |pattern|][k] == s[|x|];
    assert pattern[1..][k - 1] == pattern[k];
  }

  lemma NoOverlap(x: Octets, pattern: Octets, rest: Octets, i: nat)
    requires Unbordered(pattern) && At(x + pattern + rest, pattern, i) && i < |x|
    ensures At(x, pattern, i)
  {
    var s := x + pattern + rest;
    assert s == x + (pattern + rest);
    if i + |pattern| > |x| {
      OverlapRepeatsTheHead(x, pattern, rest, i);
    } else {
      AtWithin(x, pattern + rest, pattern, i);
    }
  }

  /** A pattern written after something without it is found there. */
  lemma FoundAfter(x: Octets, pattern: Octets, rest: Octets)
    requires Unbordered(pattern) && !Occurs(pattern, x)
    ensures Index(x + pattern + rest, pattern) == Some(|x|)
  {
    var s := x + pattern + rest;
    assert s[|x|..|x| + |pattern|] == pattern;
    assert At(s, pattern, |x|);
    IndexIsFirst(s, pattern);
    var i := Index(s, pattern).value;
    if i < |x| {
      NoOverlap(x, pattern, rest, i);
    }
  }

  /** What precedes the first occurrence does not contain the pattern. */
  lemma NoneBefore(s: Octets, pattern: Octets, i: nat)
    requires Index(s, pattern) == Some(i) && |pattern| > 0
    ensures !Occurs(pattern, s[..i])
  {
    IndexIsFirst(s, pattern);
    assert s[..i] + s[i..] == s;
    forall j ensures !At(s[..i], pattern, j) {
      if 0 <= j && j + |pattern| <= i {
        AtWithin(s[..i], s[i..], pattern, j);
      }
    }
  }

  // ------------------------------------------------------------- what is read

  function Delimiter(boundary: Octets): Octets {
    CRLF + "--" + boundary
  }

  function ParseDisposition(line: Octets): Option<(Octets, Option<Octets>)> {
    if !(NAME <= line) then None
    else
      var value := line[|NAME|..];
      match Index(value, QUOTE)
      case None => None
      case Some(i) =>
        match ParseFilename(value[i + 1..])
        case None => None
        case Some(filename) => Some((value[..i], filename))
  }

  function ParseFilename(more: Octets): Option<Option<Octets>> {
    if more == "" then Some(None)
    else if !(FILENAME <= more) then None
    else
      var filename := more[|FILENAME|..];
      match Index(filename, QUOTE)
      case None => None
      case Some(j) => if j + 1 == |filename| then Some(Some(filename[..j])) else None
  }

  function ParsePart(s: Octets): Option<Part> {
    match Index(s, CRLF)
    case None => None
    case Some(i) =>
      match ParseDisposition(s[..i])
      case None => None
      case Some((name, filename)) => ParseRest(name, filename, s[i + 2..])
  }

  /** After the disposition: a blank line, or a content type and a blank line; then the content. */
  function ParseRest(name: Octets, filename: Option<Octets>, s: Octets): Option<Part> {
    match Index(s, CRLF)
    case None => None
    case Some(i) =>
      if i == 0 then
        if filename.None? then Some(Text(name, s[2..])) else None
      else if !(TYPE <= s[..i]) || !(CRLF <= s[i + 2..]) then None
      else
        var contentType, data := s[|TYPE|..i], s[i + 4..];
        Some(if filename.Some? then File(name, filename.value, contentType, data) else Blob(name, contentType, data))
  }

  /** After a delimiter: the mark of the last one, or a part and the next delimiter. */
  function Segments(delimiter: Octets, s: Octets): Option<seq<Octets>>
    requires |delimiter| > 0
    decreases |s|
  {
    if "--" <= s then Some([])
    else if !(CRLF <= s) then None
    else
      var t := s[2..];
      match Index(t, delimiter)
      case None => None
      case Some(i) =>
        match Segments(delimiter, t[i + |delimiter|..])
        case None => None
        case Some(rest) => Some([t[..i]] + rest)
  }

  function ParseParts(segments: seq<Octets>): Option<seq<Part>> {
    if segments == [] then Some([])
    else
      var part, parts := ParsePart(segments[0]), ParseParts(segments[1..]);
      if part.None? || parts.None? then None else Some([part.value] + parts.value)
  }

  function ParseAfter(delimiter: Octets, s: Octets): Option<seq<Part>>
    requires |delimiter| > 0
  {
    var segments := Segments(delimiter, s);
    if segments.None? then None else ParseParts(segments.value)
  }

  /** The first delimiter may stand at the very start; what precedes it is a preamble. */
  function Parse(boundary: Octets, body: Octets): Option<seq<Part>> {
    var delimiter := Delimiter(boundary);
    match Index(CRLF + body, delimiter)
    case None => None
    case Some(i) => ParseAfter(delimiter, (CRLF + body)[i + |delimiter|..])
  }

  // ------------------------------------------------------------- what can be read back

  /** A value that can stand between quotes in a header line. */
  ghost predicate Quotable(value: Octets) {
    !Occurs(QUOTE, value) && !Occurs(CRLF, value)
  }

  ghost predicate PlainHeaders(p: Part) {
    && Quotable(p.name)
    && (p.File? ==> Quotable(p.filename))
    && (!p.Text? ==> !Occurs(CRLF, p.contentType))
  }

  /** The delimiter does not occur in the content, nor across the blank line before it. */
  ghost predicate ApartFrom(delimiter: Octets, p: Part) {
    !Occurs(delimiter, CRLF + Content(p))
  }

  lemma Join(pattern: Octets, a: Octets, b: Octets)
    requires |pattern| == 2 && !Occurs(pattern, a) && !Occurs(pattern, b)
    requires a == "" || b == "" || a[|a| - 1] != pattern[0] || b[0] != pattern[1]
    ensures !Occurs(pattern, a + b)
  {
    forall i ensures !At(a + b, pattern, i) {
      if i >= |a| {
        AtShifts(a, b, pattern, i - |a|);
      } else if 0 <= i && i + 2 <= |a| {
        AtWithin(a, b, pattern, i);
      } else if 0 <= i && b != "" {
        assert (a + b)[i..i + 2] == [a[|a| - 1], b[0]];
      }
    }
  }

  lemma Piece(pattern: Octets, s: Octets, from: nat, to: nat)
    requires !Occurs(pattern, s) && from <= to <= |s|
    ensures !Occurs(pattern, s[from..to])
  {
    assert s[..from] + (s[from..to] + s[to..]) == s;
    forall i ensures !At(s[from..to], pattern, i) {
      if 0 <= i && i + |pattern| <= to - from {
        AtWithin(s[from..to], s[to..], pattern, i);
        AtShifts(s[..from], s[from..to] + s[to..], pattern, i);
      }
    }
  }

  lemma NoLineEnd(s: Octets)
    requires '\r' !in s
    ensures !Occurs(CRLF, s)
  {
    forall i ensures !At(s, CRLF, i) {
      if 0 <= i && i + 2 <= |s| {
        assert s[i] == s[i..i + 2][0];
      }
    }
  }

  lemma Patterns()
    ensures Unbordered(CRLF) && Unbordered(QUOTE) && |CRLF| == 2 && |QUOTE| == 1
  {
  }

  lemma Texts()
    ensures !Occurs(CRLF, NAME) && !Occurs(CRLF, FILENAME) && !Occurs(CRLF, TYPE) && !Occurs(CRLF, QUOTE)
  {
    NoLineEnd(NAME);
    NoLineEnd(FILENAME);
    NoLineEnd(TYPE);
    NoLineEnd(QUOTE);
  }

  lemma QuotedReadsBack(value: Octets, more: Octets)
    requires !Occurs(QUOTE, value)
    ensures var s := value + QUOTE + more;
            Index(s, QUOTE) == Some(|value|) && s[..|value|] == value && s[|value| + 1..] == more
  {
    Patterns();
    FoundAfter(value, QUOTE, more);
  }

  lemma QuotedHasNoLineEnd(before: Octets, value: Octets)
    requires !Occurs(CRLF, before) && before != "" && before[|before| - 1] == '"' && !Occurs(CRLF, value)
    ensures !Occurs(CRLF, before + value + QUOTE)
  {
    Texts();
    Join(CRLF, before, value);
    Join(CRLF, before + value, QUOTE);
  }

  /** A disposition line reads back as what was written. */
  lemma DispositionReadsBack(name: Octets, filename: Option<Octets>)
    requires !Occurs(QUOTE, name) && (filename.Some? ==> !Occurs(QUOTE, filename.value))
    ensures ParseDisposition(Disposition(name, filename)) == Some((name, filename))
  {
    var more := if filename.Some? then FILENAME + filename.value + QUOTE else "";
    QuotedReadsBack(name, more);
    assert Disposition(name, filename)[|NAME|..] == name + QUOTE + more;
    if filename.Some? {
      FilenameReadsBack(filename.value);
    }
  }

  lemma FilenameReadsBack(filename: Octets)
    requires !Occurs(QUOTE, filename)
    ensures ParseFilename(FILENAME + filename + QUOTE) == Some(Some(filename))
  {
    QuotedReadsBack(filename, "");
    assert (FILENAME + filename + QUOTE)[|FILENAME|..] == filename + QUOTE + "";
  }

  lemma DispositionIsOneLine(name: Octets, filename: Option<Octets>)
    requires !Occurs(CRLF, name) && (filename.Some? ==> !Occurs(CRLF, filename.value))
    ensures !Occurs(CRLF, Disposition(name, filename))
  {
    Texts();
    QuotedHasNoLineEnd(NAME, name);
    if filename.Some? {
      QuotedHasNoLineEnd(FILENAME, filename.value);
      Join(CRLF, NAME + name + QUOTE, FILENAME + filename.value + QUOTE);
    } else {
      assert NAME + name + QUOTE + "" == NAME + name + QUOTE;
    }
  }

  lemma LineFirst(line: Octets, rest: Octets)
    requires !Occurs(CRLF, line)
    ensures var s := line + CRLF + rest;
            Index(s, CRLF) == Some(|line|) && s[..|line|] == line && s[|line| + 2..] == rest
  {
    Patterns();
    FoundAfter(line, CRLF, rest);
  }

  lemma PartHeaderRead(p: Part, rest: Octets)
    requires PlainHeaders(p)
    ensures ParsePart(Headers(p) + rest) == ParseRest(p.name, FilenameOf(p), TypeHeader(p) + rest)
  {
    var line := Disposition(p.name, FilenameOf(p));
    assert Headers(p) + rest == line + CRLF + (TypeHeader(p) + rest);
    DispositionIsOneLine(p.name, FilenameOf(p));
    DispositionReadsBack(p.name, FilenameOf(p));
    LineFirst(line, TypeHeader(p) + rest);
  }

  lemma TypeIsOneLine(contentType: Octets)
    requires !Occurs(CRLF, contentType)
    ensures !Occurs(CRLF, TYPE + contentType)
  {
    Texts();
    Join(CRLF, TYPE, contentType);
  }

  function WithContent(p: Part, content: Octets): Part {
    match p
    case Text(name, _) => Text(name, content)
    case File(name, filename, contentType, _) => File(name, filename, contentType, content)
    case Blob(name, contentType, _) => Blob(name, contentType, content)
  }

  /** A part reads back with whatever content stands after its blank line. */
  lemma PartReadsBack(p: Part, content: Octets)
    requires PlainHeaders(p)
    ensures ParsePart(Headers(p) + (CRLF + content)) == Some(WithContent(p, content))
  {
    PartHeaderRead(p, CRLF + content);
    if p.Text? {
      assert TypeHeader(p) + (CRLF + content) == "" + CRLF + content;
      LineFirst("", content);
    } else {
      var line := TYPE + p.contentType;
      TypeIsOneLine(p.contentType);
      assert TypeHeader(p) + (CRLF + content) == line + CRLF + (CRLF + content);
      LineFirst(line, CRLF + content);
      TypeRead(p, content);
    }
  }

  lemma TypeRead(p: Part, content: Octets)
    requires !p.Text?
    ensures var line := TYPE + p.contentType;
            var s := line + CRLF + (CRLF + content);
            TYPE <= line && s[|TYPE|..|line|] == p.contentType && CRLF <= s[|line| + 2..] && s[|line| + 4..] == content
  {
  }

  /** Headers without a blank line are no part. */
  lemma {:induction false} HeadersAreNoPart(p: Part)
    requires PlainHeaders(p)
    ensures ParsePart(Headers(p) + "").None?
  {
    PartHeaderRead(p, "");
    if !p.Text? {
      var line := TYPE + p.contentType;
      TypeIsOneLine(p.contentType);
      assert TypeHeader(p) + "" == line + CRLF + "";
      LineFirst(line, "");
    }
  }

  // ------------------------------------------------------------- delimiters

  ghost predicate DelimiterLike(d: Octets) {
    |d| >= 4 && d[..2] == CRLF && d[2] == '-' && Unbordered(d)
  }

  lemma IndexShifts(x: Octets, s: Octets, pattern: Octets)
    requires forall j :: At(x + s, pattern, j) ==> j >= |x|
    ensures Index(x + s, pattern)
            == if Index(s, pattern).Some? then Some(|x| + Index(s, pattern).value) else None
  {
    IndexIsFirst(s, pattern);
    IndexIsFirst(x + s, pattern);
    if Index(s, pattern).Some? {
      AtShifts(x, s, pattern, Index(s, pattern).value);
    }
    if Index(x + s, pattern).Some? {
      AtShifts(x, s, pattern, Index(x + s, pattern).value - |x|);
    }
  }

  lemma LineEndWithin(line: Octets, rest: Octets, d: Octets, j: nat)
    requires DelimiterLike(d) && At(line + rest, d, j)
    ensures j + 2 <= |line| ==> At(line, CRLF, j)
  {
    if j + 2 <= |line| {
      assert line[j..j + 2] == (line + rest)[j..j + |d|][..2];
    }
  }

  /** No delimiter begins in a header line. */
  lemma LineHoldsNone(line: Octets, rest: Octets, d: Octets)
    requires DelimiterLike(d) && !Occurs(CRLF, line) && rest != "" && rest[0] != '-'
    ensures Index(line + CRLF + rest, d)
            == if Index(rest, d).Some? then Some(|line| + 2 + Index(rest, d).value) else None
  {
    var s := line + CRLF + rest;
    assert s == line + (CRLF + rest);
    forall j | At(s, d, j) ensures j >= |line| + 2 {
      assert s[j] == s[j..j + |d|][0] == d[..2][0] && s[j + 1] == s[j..j + |d|][1] == d[..2][1];
      assert s[j + 2] == s[j..j + |d|][2] == '-';
      LineEndWithin(line, CRLF + rest, d, j);
    }
    IndexShifts(line + CRLF, rest, d);
  }

  lemma HeadersHoldNone(p: Part, rest: Octets, d: Octets)
    requires DelimiterLike(d) && PlainHeaders(p) && rest != "" && rest[0] != '-'
    ensures Index(Headers(p) + rest, d)
            == if Index(rest, d).Some? then Some(|Headers(p)| + Index(rest, d).value) else None
  {
    var line := Disposition(p.name, FilenameOf(p));
    DispositionIsOneLine(p.name, FilenameOf(p));
    assert Headers(p) + rest == line + CRLF + (TypeHeader(p) + rest);
    if p.Text? {
      assert TypeHeader(p) + rest == rest;
    } else {
      TypeIsOneLine(p.contentType);
      assert TypeHeader(p) + rest == (TYPE + p.contentType) + CRLF + rest;
      LineHoldsNone(TYPE + p.contentType, rest, d);
    }
    LineHoldsNone(line, TypeHeader(p) + rest, d);
  }

  /** The next delimiter is the one written after the content exactly when the content is apart from it; otherwise
      the content is cut short. */
  lemma NextDelimiter(x: Octets, d: Octets, rest: Octets)
    requires DelimiterLike(d) && CRLF <= x
    ensures var i := Index(x + d + rest, d);
            && i.Some? && i.value <= |x| && (i.value == |x| <==> !Occurs(d, x)) && (i.value == 0 || i.value >= 2)
  {
    var s := x + d + rest;
    assert At(s, d, |x|);
    IndexIsFirst(s, d);
    var i := Index(s, d).value;
    if Occurs(d, x) {
      var q :| At(x, d, q);
      assert s == x + (d + rest);
      AtWithin(x, d + rest, d, q);
    } else {
      FoundAfter(x, d, rest);
    }
    assert s[1] == '\n' && d[..2][0] == '\r';
    assert 1 + |d| <= |s| ==> s[1..1 + |d|][0] == s[1];
  }

  /** A part cut short is not the part. */
  lemma OnlyTheWholePart(p: Part, segment: Octets, i: nat)
    requires PlainHeaders(p) && i <= |CRLF + Content(p)| && (i == 0 || i >= 2)
    requires segment == Headers(p) + (CRLF + Content(p))[..i]
    ensures ParsePart(segment) == Some(p) <==> i == |CRLF + Content(p)|
  {
    if i == 0 {
      HeadersAreNoPart(p);
      assert (CRLF + Content(p))[..0] == "";
    } else {
      var content := Content(p)[..i - 2];
      assert (CRLF + Content(p))[..i] == CRLF + content;
      PartReadsBack(p, content);
      assert Content(WithContent(p, content)) == content;
      if i == |CRLF + Content(p)| {
        assert content == Content(p);
      }
    }
  }

  lemma Around(h: Octets, x: Octets, d: Octets, rest: Octets, i: nat)
    requires i <= |x|
    ensures var s := h + (x + d + rest);
            s == h + x + d + rest && s[..|h| + i] == h + x[..i] && s[|h + x| + |d|..] == rest
  {
  }

  /** The next delimiter, when none begins in the headers. */
  lemma DelimiterAfter(h: Octets, x: Octets, d: Octets, rest: Octets)
    requires DelimiterLike(d) && CRLF <= x
    requires Index(h + (x + d + rest), d)
             == if Index(x + d + rest, d).Some? then Some(|h| + Index(x + d + rest, d).value) else None
    ensures var s, i := h + (x + d + rest), Index(h + (x + d + rest), d);
            && i.Some? && |h| <= i.value <= |h + x|
            && (i.value == |h| || i.value >= |h| + 2)
            && (i.value == |h + x| <==> !Occurs(d, x))
            && s[..i.value] == h + x[..i.value - |h|]
  {
    NextDelimiter(x, d, rest);
    Around(h, x, d, rest, Index(x + d + rest, d).value);
  }

  /** What precedes the next delimiter parses as the part exactly when its content is apart from the delimiter. */
  lemma PartBeforeDelimiter(p: Part, d: Octets, rest: Octets)
    requires DelimiterLike(d) && PlainHeaders(p)
    ensures var h, x := Headers(p), CRLF + Content(p);
            var s := h + (x + d + rest);
            var i := Index(s, d);
            && i.Some? && i.value <= |h + x|
            && (ApartFrom(d, p) <==> ParsePart(s[..i.value]) == Some(p))
            && (ApartFrom(d, p) ==> i.value == |h + x|)
  {
    var h, x := Headers(p), CRLF + Content(p);
    var tail := x + d + rest;
    assert tail[0] == '\r';
    HeadersHoldNone(p, tail, d);
    DelimiterAfter(h, x, d, rest);
    var i := Index(h + tail, d).value;
    OnlyTheWholePart(p, (h + tail)[..i], i - |h|);
  }

  // ------------------------------------------------------------- whole forms

  /** What follows a delimiter. */
  function AfterDelimiter(boundary: Octets, parts: seq<Part>): Octets {
    if parts == [] then "--" + CRLF
    else
      CRLF + (Headers(parts[0]) + (CRLF + Content(parts[0])) + Delimiter(boundary)
              + AfterDelimiter(boundary, parts[1..]))
  }

  lemma {:induction false} EncodingIsDelimited(boundary: Octets, parts: seq<Part>)
    ensures CRLF + Encoding(boundary, parts) == Delimiter(boundary) + AfterDelimiter(boundary, parts)
  {
    if parts != [] {
      EncodingIsDelimited(boundary, parts[1..]);
      OnePartDelimited(boundary, Headers(parts[0]), Content(parts[0]), Encoding(boundary, parts[1..]),
                       AfterDelimiter(boundary, parts[1..]));
    }
  }

  lemma OnePartDelimited(boundary: Octets, headers: Octets, content: Octets, rest: Octets, after: Octets)
    requires CRLF + rest == Delimiter(boundary) + after
    ensures CRLF + ((("--" + boundary + CRLF) + headers + (CRLF + content + CRLF)) + rest)
            == Delimiter(boundary) + (CRLF + (headers + (CRLF + content) + Delimiter(boundary) + after))
  {
    var d, x := Delimiter(boundary), headers + (CRLF + content);
    assert CRLF + ((("--" + boundary + CRLF) + headers + (CRLF + content + CRLF)) + rest)
           == (d + CRLF + x) + (CRLF + rest);
    assert d + (CRLF + (x + d + after)) == (d + CRLF + x) + (d + after);
  }

  lemma DelimiterShape(boundary: Octets)
    requires '\r' !in boundary
    ensures DelimiterLike(Delimiter(boundary))
  {
    assert Delimiter(boundary)[1..] == "\n--" + boundary;
  }

  ghost predicate Readable(d: Octets, p: Part) {
    PlainHeaders(p) && ApartFrom(d, p)
  }

  /** Whatever a parsed disposition or part holds is plain. */
  lemma ParsedDispositionIsPlain(line: Octets)
    requires !Occurs(CRLF, line) && ParseDisposition(line).Some?
    ensures var (name, filename) := ParseDisposition(line).value;
            Quotable(name) && (filename.Some? ==> Quotable(filename.value))
  {
    var value := line[|NAME|..];
    var i := Index(value, QUOTE).value;
    NoneBefore(value, QUOTE, i);
    Piece(CRLF, line, |NAME|, |NAME| + i);
    assert line[|NAME|..|NAME| + i] == value[..i];
    var more := value[i + 1..];
    if more != "" {
      var filename := more[|FILENAME|..];
      var j := Index(filename, QUOTE).value;
      NoneBefore(filename, QUOTE, j);
      var from := |NAME| + i + 1 + |FILENAME|;
      Piece(CRLF, line, from, from + j);
      assert line[from..from + j] == filename[..j];
    }
  }

  lemma ParsedPartIsPlain(s: Octets)
    requires ParsePart(s).Some?
    ensures PlainHeaders(ParsePart(s).value)
  {
    var i := Index(s, CRLF).value;
    NoneBefore(s, CRLF, i);
    ParsedDispositionIsPlain(s[..i]);
    var rest := s[i + 2..];
    var j := Index(rest, CRLF).value;
    NoneBefore(rest, CRLF, j);
    if j > 0 {
      Piece(CRLF, rest[..j], |TYPE|, j);
      assert rest[..j][|TYPE|..j] == rest[|TYPE|..j];
    }
  }

  lemma SegmentStep(d: Octets, t: Octets)
    requires |d| > 0 && CRLF <= t
    ensures var i := Index(t[2..], d);
            Segments(d, t)
            == if i.None? then None
               else match Segments(d, t[2..][i.value + |d|..])
                    case None => None
                    case Some(rest) => Some([t[2..][..i.value]] + rest)
  {
    assert t[0] == '\r';
  }

  lemma ParseStep(d: Octets, t: Octets)
    requires |d| > 0 && CRLF <= t
    ensures var s := t[2..];
            var i := Index(s, d);
            ParseAfter(d, t)
            == if i.None? || ParsePart(s[..i.value]).None? || ParseAfter(d, s[i.value + |d|..]).None? then None
               else Some([ParsePart(s[..i.value]).value] + ParseAfter(d, s[i.value + |d|..]).value)
  {
    SegmentStep(d, t);
    var s := t[2..];
    var i := Index(s, d);
    if i.Some? && Segments(d, s[i.value + |d|..]).Some? {
      var first, more := s[..i.value], Segments(d, s[i.value + |d|..]).value;
      assert ([first] + more)[0] == first && ([first] + more)[1..] == more;
    }
  }

  lemma AfterLineEnd(s: Octets)
    ensures CRLF <= CRLF + s && (CRLF + s)[2..] == s
  {
  }

  /** One step of the parser: a readable part is read and the rest goes on; any other yields something else. */
  lemma {:induction false} FirstPartRead(p: Part, d: Octets, rest: Octets)
    requires DelimiterLike(d)
    ensures var r := ParseAfter(d, CRLF + (Headers(p) + (CRLF + Content(p)) + d + rest));
            var more := ParseAfter(d, rest);
            && (Readable(d, p) ==> r == if more.Some? then Some([p] + more.value) else None)
            && (!Readable(d, p) && r.Some? ==> r.value != [] && r.value[0] != p)
  {
    var x := CRLF + Content(p);
    var s := Headers(p) + (x + d + rest);
    Around(Headers(p), x, d, rest, 0);
    AfterLineEnd(s);
    ParseStep(d, CRLF + s);
    if PlainHeaders(p) {
      PartBeforeDelimiter(p, d, rest);
    }
    if Index(s, d).Some? && ParsePart(s[..Index(s, d).value]).Some? {
      ParsedPartIsPlain(s[..Index(s, d).value]);
    }
  }

  ghost predicate AllReadable(d: Octets, parts: seq<Part>) {
    forall i :: 0 <= i < |parts| ==> Readable(d, parts[i])
  }

  lemma AllReadableFrom(d: Octets, parts: seq<Part>)
    requires parts != []
    ensures AllReadable(d, parts) <==> Readable(d, parts[0]) && AllReadable(d, parts[1..])
  {
    if Readable(d, parts[0]) && AllReadable(d, parts[1..]) {
      forall i | 0 <= i < |parts| ensures Readable(d, parts[i]) {
        assert i > 0 ==> parts[i] == parts[1..][i - 1];
      }
    }
  }

  lemma EndIsRead(d: Octets)
    requires |d| > 0
    ensures ParseAfter(d, "--" + CRLF) == Some([])
  {
  }

  lemma {:induction false} PartsReadBackExactly(boundary: Octets, parts: seq<Part>)
    requires '\r' !in boundary
    ensures ParseAfter(Delimiter(boundary), AfterDelimiter(boundary, parts)) == Some(parts)
            <==> AllReadable(Delimiter(boundary), parts)
    decreases |parts|
  {
    var d := Delimiter(boundary);
    if parts == [] {
      EndIsRead(d);
    } else {
      var p, more := parts[0], parts[1..];
      assert parts == [p] + more;
      DelimiterShape(boundary);
      PartsReadBackExactly(boundary, more);
      FirstPartRead(p, d, AfterDelimiter(boundary, more));
      AllReadableFrom(d, parts);
    }
  }

  lemma {:induction false} DelimitedIsParsed(boundary: Octets, parts: seq<Part>)
    ensures Parse(boundary, Encoding(boundary, parts))
            == ParseAfter(Delimiter(boundary), AfterDelimiter(boundary, parts))
  {
    EncodingIsDelimited(boundary, parts);
    StartsAtOnce(Delimiter(boundary), AfterDelimiter(boundary, parts));
  }

  lemma StartsAtOnce(d: Octets, after: Octets)
    ensures Index(d + after, d) == Some(0) && (d + after)[|d|..] == after
  {
    assert At(d + after, d, 0);
    IndexIsFirst(d + after, d);
  }

  /** The clock makes the boundary. */
  function Hex(n: nat, digits: nat): Octets {
    (if n >= 16 || digits > 1 then Hex(n / 16, if digits > 0 then digits - 1 else 0) else "")
    + ["0123456789abcdef"[n % 16]]
  }

  function GenerateBoundary(nanos: nat): Octets {
    "----RustFormBoundary" + Hex(nanos, 32)
  }

  lemma {:induction false} HexHasNoReturn(n: nat, digits: nat)
    ensures '\r' !in Hex(n, digits)
    decreases n, digits
  {
    if n >= 16 || digits > 1 {
      HexHasNoReturn(n / 16, if digits > 0 then digits - 1 else 0);
    }
    assert '\r' !in "0123456789abcdef";
  }

  lemma JoinHasNoReturn(s: Octets, t: Octets)
    requires '\r' !in s && '\r' !in t
    ensures '\r' !in s + t
  {
  }

  lemma BoundaryHasNoReturn(nanos: nat)
    ensures '\r' !in GenerateBoundary(nanos)
  {
    HexHasNoReturn(nanos, 32);
    var prefix := "----RustFormBoundary";
    forall i | 0 <= i < |prefix| ensures prefix[i] != '\r' {
    }
    JoinHasNoReturn(prefix, Hex(nanos, 32));
  }

  /** An encoded form reads back as itself exactly when no header value holds a quote or a line end, and no content
      holds the delimiter, be it across the blank line before it. */
  lemma {:induction false} FormsReadBackExactly(nanos: nat, parts: seq<Part>)
    ensures var boundary := GenerateBoundary(nanos);
            Parse(boundary, Encoding(boundary, parts)) == Some(parts)
            <==> AllReadable(Delimiter(boundary), parts)
  {
    var boundary := GenerateBoundary(nanos);
    BoundaryHasNoReturn(nanos);
    DelimitedIsParsed(boundary, parts);
    PartsReadBackExactly(boundary, parts);
  }

  /** Why the quote matters: no parser at all can tell these two forms apart. */
  lemma QuotesCollide(boundary: Octets, name: Octets, filename: Octets, contentType: Octets, data: Octets)
    ensures Encoding(boundary, [Blob(name + QUOTE + FILENAME + filename, contentType, data)])
            == Encoding(boundary, [File(name, filename, contentType, data)])
  {
    var hidden := Blob(name + QUOTE + FILENAME + filename, contentType, data);
    var named := File(name, filename, contentType, data);
    DispositionsCollide(name, filename);
    assert Headers(hidden) == Headers(named);
    assert PartOctets(boundary, hidden) == PartOctets(boundary, named);
    assert [hidden][1..] == [] && [named][1..] == [];
  }

  lemma DispositionsCollide(name: Octets, filename: Octets)
    ensures Disposition(name + QUOTE + FILENAME + filename, None) == Disposition(name, Some(filename))
  {
    assert NAME + (name + QUOTE + FILENAME + filename) == NAME + name + QUOTE + (FILENAME + filename);
    assert NAME + name + QUOTE + (FILENAME + filename) + QUOTE == NAME + name + QUOTE + (FILENAME + filename + QUOTE);
  }
}
