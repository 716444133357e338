/** What the regular expressions of the article parser (`markdown-kb.tsx`) say of one line. */
module MarkdownLines {
  import opened Text

  // ----------------------------------------------------------------- characters

  /** White space, as `trim` and `\s` have it. */
  predicate White(c: char) {
    || c == ' ' || '\t' <= c <= '\r' || c == '\U{A0}' || c == '\U{1680}' || '\U{2000}' <= c <= '\U{200A}'
    || c == '\U{2028}' || c == '\U{2029}' || c == '\U{202F}' || c == '\U{205F}' || c == '\U{3000}' || c == '\U{FEFF}'
  }

  /** What `.` does not match. */
  predicate LineEnd(c: char) {
    c == '\n' || c == '\r' || c == '\U{2028}' || c == '\U{2029}'
  }

  /** The number of leading elements with property `p`. */
  function Run<T>(s: seq<T>, p: T -> bool): (n: nat)
    ensures n <= |s|
    ensures forall i | 0 <= i < n :: p(s[i])
    ensures n < |s| ==> !p(s[n])
  {
    if s != [] && p(s[0]) then 1 + Run(s[1..], p) else 0
  }

  function TrimStart(s: string): string {
    s[Run(s, White)..]
  }

  function TrimEnd(s: string): string {
    if s != "" && White(s[|s| - 1]) then TrimEnd(s[..|s| - 1]) else s
  }

  function Trim(s: string): string {
    TrimEnd(TrimStart(s))
  }

  // ---------------------------------------------------------------------- lines

  predicate Blank(line: string) {
    Trim(line) == ""
  }

  predicate Fence(line: string) {
    "```" <= Trim(line)
  }

  function Hashes(line: string): nat {
    Run(line, (c: char) => c == '#')
  }

  /** `/^(#{1,4})\s+(.*)$/` */
  predicate IsHeading(line: string) {
    var n := Hashes(line);
    1 <= n <= 4 && n < |line| && White(line[n]) && forall c | c in TrimStart(line[n..]) :: !LineEnd(c)
  }

  /** `#` is already a second-level heading, as the title of the page is the first. */
  function HeadingLevel(line: string): int {
    if Hashes(line) + 1 < 4 then Hashes(line) + 1 else 4
  }

  predicate IsQuote(line: string) {
    "> " <= line
  }

  predicate IsRule(line: string) {
    var t := Trim(line);
    |t| >= 3 && (Run(t, (c: char) => c == '-') == |t| || Run(t, (c: char) => c == '*') == |t|)
  }

  /** The length of the mark `\d+\.\s+` at the start of a line, 0 without one. */
  function NumberMark(line: string): (n: nat)
    ensures n <= |line|
  {
    var d := Run(line, IsDigit);
    if d == 0 || d + 1 >= |line| || line[d] != '.' || !White(line[d + 1]) then 0
    else d + 1 + Run(line[d + 1..], White)
  }

  predicate IsNumbered(line: string) {
    NumberMark(line) > 0
  }

  /** The length of the mark `[-*]\s+` at the start of a line, 0 without one. */
  function BulletMark(line: string): (n: nat)
    ensures n <= |line|
  {
    if |line| < 2 || (line[0] != '-' && line[0] != '*') || !White(line[1]) then 0
    else 1 + Run(line[1..], White)
  }

  predicate IsBullet(line: string) {
    BulletMark(line) > 0
  }

  /** `POCZATEK_BLOKU`: a line that ends a paragraph. */
  predicate StartsBlock(line: string) {
    var n := Hashes(line);
    || (1 <= n <= 4 && n < |line| && White(line[n]))
    || IsBullet(line) || IsNumbered(line)
    || (|line| >= 2 && line[0] == '>' && White(line[1]))
    || "```" <= line
  }

  /** What a line is where a block may begin, tried in this order; with the text behind its mark. */
  datatype Kind =
    | BlankLine
    | FenceLine
    | HeadingLine(level: int, content: string)
    | QuoteLine(content: string)
    | RuleLine
    | NumberLine(content: string)
    | BulletLine(content: string)
    | TextLine

  function KindOf(line: string): Kind {
    if Blank(line) then BlankLine
    else if Fence(line) then FenceLine
    else if IsHeading(line) then HeadingLine(HeadingLevel(line), TrimStart(line[Hashes(line)..]))
    else if IsQuote(line) then QuoteLine(line[2..])
    else if IsRule(line) then RuleLine
    else if IsNumbered(line) then NumberLine(line[NumberMark(line)..])
    else if IsBullet(line) then BulletLine(line[BulletMark(line)..])
    else TextLine
  }

  datatype Line = Line(text: string, kind: Kind, startsBlock: bool)

  /** A line with all that the parser asks of it. */
  function Read(line: string): Line {
    Line(line, KindOf(line), StartsBlock(line))
  }

  // ------------------------------------------- the inner loops ask the same again

  lemma {:induction false} TrimEndKeepsStart(s: string)
    requires s != "" && !White(s[0])
    ensures TrimEnd(s) != "" && TrimEnd(s)[0] == s[0] && TrimEnd(s) <= s
  {
    if !White(s[|s| - 1]) {
    } else {
      TrimEndKeepsStart(s[..|s| - 1]);
    }
  }

  /** A line that does not begin with white space is trimmed at its end only. */
  lemma TrimPlain(line: string)
    requires line != "" && !White(line[0])
    ensures Trim(line) != "" && Trim(line)[0] == line[0] && Trim(line) <= line
  {
    assert TrimStart(line) == line;
    TrimEndKeepsStart(line);
  }

  lemma NotFenceNorHeading(line: string)
    requires line != "" && !White(line[0]) && line[0] != '`' && line[0] != '#'
    ensures !Blank(line) && !Fence(line) && !IsHeading(line)
  {
    TrimPlain(line);
  }

  lemma NumberedKind(line: string)
    requires IsNumbered(line)
    ensures KindOf(line) == NumberLine(line[NumberMark(line)..])
  {
    assert IsDigit(line[0]);
    NotFenceNorHeading(line);
    TrimPlain(line);
  }

  lemma BulletIsNotRule(line: string)
    requires IsBullet(line)
    ensures !IsRule(line)
  {
    TrimPlain(line);
    if |Trim(line)| >= 3 {
      assert White(Trim(line)[1]);
    }
  }

  lemma BulletKind(line: string)
    requires IsBullet(line)
    ensures KindOf(line) == BulletLine(line[BulletMark(line)..])
  {
    NotFenceNorHeading(line);
    BulletIsNotRule(line);
  }

  lemma QuoteKind(line: string)
    requires IsQuote(line)
    ensures KindOf(line) == QuoteLine(line[2..])
  {
    assert line[0] == '>';
    NotFenceNorHeading(line);
  }

  lemma FenceKind(line: string)
    requires Fence(line)
    ensures KindOf(line).FenceLine?
  {
  }

  /** The tests that the inner loops repeat agree with the kind found by trying them in order. */
  lemma KindsAgree(line: string)
    ensures Fence(line) <==> KindOf(line).FenceLine?
    ensures IsQuote(line) <==> KindOf(line).QuoteLine?
    ensures IsNumbered(line) <==> KindOf(line).NumberLine?
    ensures IsBullet(line) <==> KindOf(line).BulletLine?
    ensures Blank(line) <==> KindOf(line).BlankLine?
  {
    if Fence(line) {
      FenceKind(line);
    }
    if IsQuote(line) {
      QuoteKind(line);
    }
    if IsNumbered(line) {
      NumberedKind(line);
    }
    if IsBullet(line) {
      BulletKind(line);
    }
  }
}
