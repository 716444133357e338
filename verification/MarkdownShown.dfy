/**
 * What an article shows, line by line and character by character: every form a line may have, and the element that it
 * gives. The forms are stated on the characters; the parser's own tests are proved to agree with them.
 */
module MarkdownShown {
  import opened Options
  import opened Text
  import opened MarkdownLines
  import opened Markdown
  import Marks = MarkdownInline

  // ------------------------------------------------------------------ white space

  /** The white space and line ends of ECMA-262, by their code points. */
  lemma WhiteInNumbers(c: char)
    ensures White(c) <==>
              var n := c as int;
              || 9 <= n <= 13 || n == 32 || n == 160 || n == 5760 || 8192 <= n <= 8202 || n == 8232 || n == 8233
              || n == 8239 || n == 8287 || n == 12288 || n == 65279
  {
  }

  predicate Spaces(s: string) {
    forall i | 0 <= i < |s| :: White(s[i])
  }

  lemma {:induction false} RunIs<T>(s: seq<T>, p: T -> bool, n: nat)
    requires n <= |s| && (forall i | 0 <= i < n :: p(s[i])) && (n < |s| ==> !p(s[n]))
    ensures Run(s, p) == n
  {
    if n == 0 {
    } else {
      RunIs(s[1..], p, n - 1);
    }
  }

  lemma {:induction false} TrimEndOf(t: string, b: string)
    requires Spaces(b) && (t == "" || !White(t[|t| - 1]))
    ensures TrimEnd(t + b) == t
  {
    if b == "" {
      assert t + b == t;
    } else {
      assert (t + b)[..|t + b| - 1] == t + b[..|b| - 1];
      TrimEndOf(t, b[..|b| - 1]);
    }
  }

  lemma TrimIs(a: string, t: string, b: string)
    requires Spaces(a) && Spaces(b) && (t == "" || (!White(t[0]) && !White(t[|t| - 1])))
    ensures Trim(a + t + b) == t
  {
    var s := a + t + b;
    if t == "" {
      RunIs(s, White, |s|);
      assert TrimStart(s) == "";
    } else {
      RunIs(s, White, |a|);
      assert TrimStart(s) == t + b;
      TrimEndOf(t, b);
    }
  }

  lemma {:induction false} TrimEndParts(s: string) returns (b: string)
    ensures Spaces(b) && s == TrimEnd(s) + b && (TrimEnd(s) == "" || !White(TrimEnd(s)[|TrimEnd(s)| - 1]))
  {
    if s != "" && White(s[|s| - 1]) {
      b := TrimEndParts(s[..|s| - 1]);
      b := b + [s[|s| - 1]];
      assert s == s[..|s| - 1] + [s[|s| - 1]];
    } else {
      b := "";
    }
  }

  lemma TrimStartParts(s: string)
    ensures var n := Run(s, White); Spaces(s[..n]) && s == s[..n] + TrimStart(s)
    ensures TrimStart(s) != "" ==> !White(TrimStart(s)[0])
  {
  }

  /** A line is its trimmed text with white space around it. */
  lemma TrimParts(s: string) returns (a: string, b: string)
    ensures Spaces(a) && Spaces(b) && s == a + Trim(s) + b
    ensures Trim(s) == "" || (!White(Trim(s)[0]) && !White(Trim(s)[|Trim(s)| - 1]))
  {
    var t := TrimStart(s);
    TrimStartParts(s);
    a := s[..Run(s, White)];
    b := TrimEndParts(t);
    if t != "" {
      TrimEndKeepsStart(t);
    }
    assert a + t == a + TrimEnd(t) + b;
  }

  lemma BlankIff(line: string)
    ensures Blank(line) <==> Spaces(line)
  {
    var a, b := TrimParts(line);
    if Spaces(line) {
      TrimIs(line, "", "");
      assert line + "" + "" == line;
    }
  }

  // ------------------------------------------------------------------ forms of a line

  /** Three backticks, with white space before them or not. */
  predicate FenceForm(line: string) {
    exists i | 0 <= i <= |line| :: Spaces(line[..i]) && "```" <= line[i..]
  }

  /** One to four hashes, white space, and a text without line ends behind it. */
  predicate HeadingForm(line: string) {
    exists k, j | 1 <= k <= 4 && k < j <= |line| :: HeadingParts(line, k, j)
  }

  predicate HeadingParts(line: string, k: int, j: int)
    requires 0 <= k <= j <= |line|
  {
    && (forall i | 0 <= i < k :: line[i] == '#') && Spaces(line[k..j])
    && forall i | j <= i < |line| :: !LineEnd(line[i])
  }

  /** Three or more dashes, or as many stars, with white space around them or not. */
  predicate RuleForm(line: string) {
    exists i, j | 0 <= i && i + 3 <= j <= |line| :: RuleParts(line, i, j)
  }

  predicate RuleParts(line: string, i: int, j: int)
    requires 0 <= i <= j <= |line|
  {
    && Spaces(line[..i]) && Spaces(line[j..])
    && ((forall k | i <= k < j :: line[k] == '-') || (forall k | i <= k < j :: line[k] == '*'))
  }

  /** Digits, a dot and white space. */
  predicate NumberForm(line: string) {
    exists d | 1 <= d < |line| :: NumberParts(line, d)
  }

  predicate NumberParts(line: string, d: int)
    requires 1 <= d < |line|
  {
    (forall i | 0 <= i < d :: '0' <= line[i] <= '9') && line[d] == '.' && d + 1 < |line| && White(line[d + 1])
  }

  /** So many hashes, and white space. */
  predicate HashParts(line: string, k: int)
    requires 0 <= k < |line|
  {
    (forall i | 0 <= i < k :: line[i] == '#') && White(line[k])
  }

  predicate HashForm(line: string) {
    exists k | 1 <= k <= 4 && k < |line| :: HashParts(line, k)
  }

  /** A dash or a star, and white space. */
  predicate BulletForm(line: string) {
    |line| >= 2 && (line[0] == '-' || line[0] == '*') && White(line[1])
  }

  predicate QuoteForm(line: string) {
    |line| >= 2 && line[0] == '>' && line[1] == ' '
  }

  /** The line goes on with a paragraph: it is not blank and has none of the forms that begin a block. */
  predicate GoesOn(line: string) {
    && !Spaces(line)
    && !HashForm(line) && !BulletForm(line) && !NumberForm(line)
    && !(|line| >= 2 && line[0] == '>' && White(line[1]))
    && !(|line| >= 3 && line[0] == '`' && line[1] == '`' && line[2] == '`')
  }

  /** The line begins a paragraph: it is nothing else. */
  predicate BeginsText(line: string) {
    && !Spaces(line) && !FenceForm(line) && !HeadingForm(line) && !QuoteForm(line) && !RuleForm(line)
    && !NumberForm(line) && !BulletForm(line)
  }

  // ------------------------------------------------- the parser's tests see those forms

  lemma FenceIff(line: string)
    ensures Fence(line) <==> FenceForm(line)
  {
    var a, b := TrimParts(line);
    var t := Trim(line);
    if Fence(line) {
      assert line[..|a|] == a && line[|a|..] == t + b;
    }
    if i :| 0 <= i <= |line| && Spaces(line[..i]) && "```" <= line[i..] {
      FenceTrimmed(line, i);
    }
  }

  lemma FenceTrimmed(line: string, i: nat)
    requires i <= |line| && Spaces(line[..i]) && "```" <= line[i..]
    ensures "```" <= Trim(line)
  {
    RunIs(line, White, i);
    var s := line[i..];
    assert TrimStart(line) == s && s[0] == '`' && s[1] == '`' && s[2] == '`';
    var b := TrimEndParts(s);
    var t := TrimEnd(s);
    assert forall i | |t| <= i < |s| :: s[i] == b[i - |t|];
  }

  lemma HashesAre(line: string, k: nat)
    requires k < |line| && HashParts(line, k)
    ensures Hashes(line) == k
  {
    RunIs(line, (c: char) => c == '#', k);
  }

  lemma HeadingIff(line: string)
    ensures IsHeading(line) <==> HeadingForm(line)
  {
    if IsHeading(line) {
      var n := Hashes(line);
      var j := n + Run(line[n..], White);
      assert TrimStart(line[n..]) == line[j..];
      forall i | j <= i < |line|
        ensures !LineEnd(line[i])
      {
        assert line[i] == line[j..][i - j];
      }
      assert HeadingParts(line, n, j);
    }
    if k, j :| 1 <= k <= 4 && k < j <= |line| && HeadingParts(line, k, j) {
      assert line[k] == line[k..j][0];
      HashesAre(line, k);
      var m := k + Run(line[k..], White);
      HeadingReach(line, k, j, m);
      assert TrimStart(line[k..]) == line[m..];
    }
  }

  lemma HeadingReach(line: string, k: nat, j: nat, m: nat)
    requires k < j <= |line| && Spaces(line[k..j]) && m == k + Run(line[k..], White)
    ensures j <= m
  {
    assert forall i | 0 <= i < j - k :: line[k..][i] == line[k..j][i];
  }

  lemma RuleIff(line: string)
    ensures IsRule(line) <==> RuleForm(line)
  {
    if IsRule(line) {
      var a, b := TrimParts(line);
      var t := Trim(line);
      var i, j := |a|, |a| + |t|;
      assert line[..i] == a && line[j..] == b && line[i..j] == t;
      forall k | i <= k < j
        ensures line[k] == t[k - i]
      {
      }
      assert RuleParts(line, i, j);
    }
    if i, j :| 0 <= i && i + 3 <= j <= |line| && RuleParts(line, i, j) {
      RuleTrimmed(line, i, j);
    }
  }

  lemma RuleTrimmed(line: string, i: nat, j: nat)
    requires i + 3 <= j <= |line| && RuleParts(line, i, j)
    ensures IsRule(line)
  {
    var t := line[i..j];
    assert line == line[..i] + t + line[j..];
    TrimIs(line[..i], t, line[j..]);
    if forall k | i <= k < j :: line[k] == '-' {
      RunIs(t, (c: char) => c == '-', |t|);
    } else {
      RunIs(t, (c: char) => c == '*', |t|);
    }
  }

  lemma NumberIff(line: string)
    ensures IsNumbered(line) <==> NumberForm(line)
  {
    if d :| 1 <= d < |line| && NumberParts(line, d) {
      RunIs(line, IsDigit, d);
    } else if IsNumbered(line) {
      assert NumberParts(line, Run(line, IsDigit));
    }
  }

  lemma BulletIff(line: string)
    ensures IsBullet(line) <==> BulletForm(line)
  {
  }

  lemma QuoteIff(line: string)
    ensures IsQuote(line) <==> QuoteForm(line)
  {
  }

  lemma StartIff(line: string)
    ensures StartsBlock(line) <==>
              || HashForm(line) || BulletForm(line) || NumberForm(line)
              || (|line| >= 2 && line[0] == '>' && White(line[1]))
              || (|line| >= 3 && line[0] == '`' && line[1] == '`' && line[2] == '`')
  {
    BulletIff(line);
    NumberIff(line);
    if k :| 1 <= k <= 4 && k < |line| && HashParts(line, k) {
      HashesAre(line, k);
    } else if Hashes(line) < |line| && 1 <= Hashes(line) <= 4 && White(line[Hashes(line)]) {
      assert HashParts(line, Hashes(line));
    }
  }

  lemma GoesOnIff(line: string)
    ensures Belongs(Read(line), InText) <==> GoesOn(line)
  {
    KindsAgree(line);
    BlankIff(line);
    StartIff(line);
  }

  lemma BeginsTextIff(line: string)
    ensures KindOf(line).TextLine? <==> BeginsText(line)
  {
    BlankIff(line);
    FenceIff(line);
    HeadingIff(line);
    QuoteIff(line);
    RuleIff(line);
    NumberIff(line);
    BulletIff(line);
  }

  /** What is read of a line, in the forms above. */
  predicate Told(l: Line, line: string) {
    && l.text == line
    && (l.kind.BlankLine? <==> Spaces(line))
    && (l.kind.FenceLine? <==> FenceForm(line))
    && (l.kind.QuoteLine? <==> QuoteForm(line))
    && (l.kind.NumberLine? <==> NumberForm(line))
    && (l.kind.BulletLine? <==> BulletForm(line))
    && (l.kind.TextLine? <==> BeginsText(line))
    && (Belongs(l, InText) <==> GoesOn(line))
  }

  predicate AllTold(ls: seq<Line>, lines: seq<string>) {
    |ls| == |lines| && forall i | 0 <= i < |ls| :: Told(ls[i], lines[i])
  }

  lemma LineTold(line: string)
    ensures Told(Read(line), line)
  {
    KindsAgree(line);
    GoesOnIff(line);
    BeginsTextIff(line);
    BlankIff(line);
    FenceIff(line);
    QuoteIff(line);
    NumberIff(line);
    BulletIff(line);
  }

  lemma LinesTold(lines: seq<string>)
    ensures AllTold(Each(Read, lines), lines)
  {
    forall i | 0 <= i < |lines|
      ensures Told(Each(Read, lines)[i], lines[i])
    {
      LineTold(lines[i]);
    }
  }

  // ------------------------------------------------------------ one block at a time

  lemma BlocksThen(all: seq<Line>, n: nat, b: Option<Block>)
    requires all != [] && Next(all) == Step(b, n)
    ensures n <= |all| && Blocks(all) == Listed(b) + Blocks(all[n..])
  {
  }

  lemma GroupStep(ls: seq<Line>, rest: seq<Line>, g: Group)
    requires ls != [] && Opens(ls[0].kind) == Some(g) && !g.InCode?
    requires forall i | (if g.InText? then 1 else 0) <= i < |ls| :: Belongs(ls[i], g)
    requires rest != [] ==> !Belongs(rest[0], g)
    ensures Blocks(ls + rest) == [Many(g, ls)] + Blocks(rest)
  {
    var all := ls + rest;
    assert all[0] == ls[0] && all[..|ls|] == ls && all[|ls|..] == rest;
    if g.InText? {
      assert all[1..] == ls[1..] + rest;
      CountIs(all[1..], g, |ls| - 1);
    } else {
      CountIs(all, g, |ls|);
    }
    BlocksThen(all, |ls|, Some(Many(g, ls)));
  }

  lemma OneStep(l: Line, rest: seq<Line>)
    requires Opens(l.kind).None?
    ensures Blocks([l] + rest) == (if l.kind.BlankLine? then [] else [One(l)]) + Blocks(rest)
  {
    var all := [l] + rest;
    assert all[0] == l && all[1..] == rest;
    BlocksThen(all, 1, if l.kind.BlankLine? then None else Some(One(l)));
  }

  /** What an open fence takes: all lines up to the next fence, and that fence. */
  lemma CodeNext(all: seq<Line>, n: nat)
    requires 1 <= n <= |all| && all[0].kind.FenceLine?
    requires (forall i | 1 <= i < n :: !all[i].kind.FenceLine?) && (n < |all| ==> all[n].kind.FenceLine?)
    ensures Next(all) == Step(Some(Many(InCode, all[1..n])), if n < |all| then n + 1 else n)
  {
    CountIs(all[1..], InCode, n - 1);
  }

  lemma CodeStep(fence: Line, ls: seq<Line>, close: seq<Line>, rest: seq<Line>)
    requires fence.kind.FenceLine? && (forall i | 0 <= i < |ls| :: !ls[i].kind.FenceLine?)
    requires if close == [] then rest == [] else |close| == 1 && close[0].kind.FenceLine?
    ensures Blocks([fence] + ls + close + rest) == [Many(InCode, ls)] + Blocks(rest)
  {
    var all := [fence] + ls + close + rest;
    var n := 1 + |ls|;
    var b := Many(InCode, ls);
    assert all[1..n] == ls && all[n + |close|..] == rest;
    CodeNext(all, n);
    BlocksThen(all, n + |close|, Some(b));
  }

  // ------------------------------------------------------------ what a block shows

  lemma OneShownAs(lines: seq<string>, rest: seq<string>, b: Block)
    requires Blocks(Each(Read, lines) + Each(Read, rest)) == [b] + Blocks(Each(Read, rest))
    ensures Article(lines + rest) == [Render(b)] + Article(rest)
  {
    EachOfSum(Read, lines, rest);
    EachOfSum(Render, [b], Blocks(Each(Read, rest)));
    EachOfOne(Render, b);
  }

  lemma EachOfOne<T, U>(f: T -> U, x: T)
    ensures Each(f, [x]) == [f(x)]
  {
  }

  /** The texts or contents that a block shows. */
  lemma EachIs<T, U>(f: T -> U, s: seq<T>, r: seq<U>)
    requires |s| == |r| && forall i | 0 <= i < |s| :: f(s[i]) == r[i]
    ensures Each(f, s) == r
  {
  }

  /** Texts with a gap between each two; by its end, where `Joined` goes by its beginning. */
  lemma {:induction false} JoinedThen(parts: seq<string>, last: string, gap: string)
    ensures Joined(parts + [last], gap) == if parts == [] then last else Joined(parts, gap) + gap + last
  {
    if parts == [] {
      assert parts + [last] == [last];
    } else {
      JoinedThen(parts[1..], last, gap);
      assert (parts + [last])[0] == parts[0] && (parts + [last])[1..] == parts[1..] + [last];
    }
  }

  lemma BlankShown(line: string, rest: seq<string>)
    requires Spaces(line)
    ensures Article([line] + rest) == Article(rest)
  {
    LineTold(line);
    OneStep(Read(line), Each(Read, rest));
    EachOfOne(Read, line);
    EachOfSum(Read, [line], rest);
  }

  // ------------------------------------------------------------------- paragraphs

  lemma TextGroup(ls: seq<Line>, lines: seq<string>, after: seq<Line>, rest: seq<string>)
    requires AllTold(ls, lines) && AllTold(after, rest)
    requires lines != [] && BeginsText(lines[0]) && (forall i | 1 <= i < |lines| :: GoesOn(lines[i]))
    requires rest != [] ==> !GoesOn(rest[0])
    ensures Blocks(ls + after) == [Many(InText, ls)] + Blocks(after)
  {
    assert Told(ls[0], lines[0]);
    assert rest != [] ==> Told(after[0], rest[0]);
    forall i | 1 <= i < |ls|
      ensures Belongs(ls[i], InText)
    {
      assert Told(ls[i], lines[i]) && GoesOn(lines[i]);
    }
    GroupStep(ls, after, InText);
  }

  lemma TextReachIff(ls: seq<Line>, lines: seq<string>, n: nat)
    requires AllTold(ls, lines) && 1 <= n <= |lines| && BeginsText(lines[0])
    ensures Next(ls).used == n <==>
              (forall i | 1 <= i < n :: GoesOn(lines[i])) && (n < |lines| ==> !GoesOn(lines[n]))
  {
    assert Told(ls[0], lines[0]);
    var c := Count(ls[1..], InText);
    assert Next(ls).used == 1 + c;
    forall i | 1 <= i < |ls|
      ensures Belongs(ls[1..][i - 1], InText) <==> GoesOn(lines[i])
    {
      assert Told(ls[i], lines[i]);
    }
    if (forall i | 1 <= i < n :: GoesOn(lines[i])) && (n < |lines| ==> !GoesOn(lines[n])) {
      CountIs(ls[1..], InText, n - 1);
    }
  }

  /** A line that begins a paragraph takes exactly the lines that go on with it, up to the first that does not. */
  lemma ParagraphEndsIff(lines: seq<string>, n: nat)
    requires 1 <= n <= |lines| && BeginsText(lines[0])
    ensures Next(Each(Read, lines)).used == n <==>
              (forall i | 1 <= i < n :: GoesOn(lines[i])) && (n < |lines| ==> !GoesOn(lines[n]))
  {
    LinesTold(lines);
    TextReachIff(Each(Read, lines), lines, n);
  }

  lemma TextsAre(ls: seq<Line>, lines: seq<string>)
    requires AllTold(ls, lines)
    ensures Each(TextOf, ls) == lines
  {
    forall i | 0 <= i < |ls|
      ensures TextOf(ls[i]) == lines[i]
    {
      assert Told(ls[i], lines[i]);
    }
    EachIs(TextOf, ls, lines);
  }

  lemma RenderText(ls: seq<Line>, lines: seq<string>)
    requires AllTold(ls, lines)
    ensures Render(Many(InText, ls)) == P(Marks.Inline(Joined(lines, " ")))
  {
    TextsAre(ls, lines);
  }

  /**
   * A paragraph is a line that begins one and every line after it that goes on, up to the first that does not, set with
   * a space between each two.
   */
  lemma ParagraphShown(lines: seq<string>, rest: seq<string>)
    requires lines != [] && BeginsText(lines[0]) && (forall i | 1 <= i < |lines| :: GoesOn(lines[i]))
    requires rest != [] ==> !GoesOn(rest[0])
    ensures Article(lines + rest) == [P(Marks.Inline(Joined(lines, " ")))] + Article(rest)
  {
    LinesTold(lines);
    LinesTold(rest);
    TextGroup(Each(Read, lines), lines, Each(Read, rest), rest);
    RenderText(Each(Read, lines), lines);
    OneShownAs(lines, rest, Many(InText, Each(Read, lines)));
  }

  // ------------------------------------------------------------------------- code

  lemma CodeGroup(open: string, lines: seq<string>, close: seq<string>, rest: seq<string>)
    requires FenceForm(open) && (forall i | 0 <= i < |lines| :: !FenceForm(lines[i]))
    requires if close == [] then rest == [] else |close| == 1 && FenceForm(close[0])
    ensures Blocks(Each(Read, [open] + lines + close) + Each(Read, rest))
         == [Many(InCode, Each(Read, lines))] + Blocks(Each(Read, rest))
  {
    LineTold(open);
    LinesTold(lines);
    LinesTold(close);
    forall i | 0 <= i < |lines|
      ensures !Each(Read, lines)[i].kind.FenceLine?
    {
      assert Told(Each(Read, lines)[i], lines[i]);
    }
    assert close != [] ==> Told(Each(Read, close)[0], close[0]);
    EachOfOne(Read, open);
    EachOfSum(Read, [open], lines);
    EachOfSum(Read, [open] + lines, close);
    CodeStep(Read(open), Each(Read, lines), Each(Read, close), Each(Read, rest));
  }

  lemma RenderCode(ls: seq<Line>, lines: seq<string>)
    requires AllTold(ls, lines)
    ensures Render(Many(InCode, ls)) == Pre(Joined(lines, "\n"))
  {
    TextsAre(ls, lines);
  }

  /** The lines between two fences, or behind one that is never closed, are shown as they are, line under line. */
  lemma CodeShown(open: string, lines: seq<string>, close: seq<string>, rest: seq<string>)
    requires FenceForm(open) && (forall i | 0 <= i < |lines| :: !FenceForm(lines[i]))
    requires if close == [] then rest == [] else |close| == 1 && FenceForm(close[0])
    ensures Article([open] + lines + close + rest) == [Pre(Joined(lines, "\n"))] + Article(rest)
  {
    CodeGroup(open, lines, close, rest);
    LinesTold(lines);
    RenderCode(Each(Read, lines), lines);
    OneShownAs([open] + lines + close, rest, Many(InCode, Each(Read, lines)));
  }

  // -------------------------------------------------------------- headings and rules

  /** So many hashes, white space, and the text behind all of it. */
  predicate HeadingOf(line: string, k: nat, gap: string, text: string) {
    && k <= |line| && (forall i | 0 <= i < k :: line[i] == '#') && line[k..] == gap + text
    && gap != "" && Spaces(gap) && (text == "" || !White(text[0])) && forall i | 0 <= i < |text| :: !LineEnd(text[i])
  }

  lemma TrimStartIs(gap: string, text: string)
    requires Spaces(gap) && (text == "" || !White(text[0]))
    ensures TrimStart(gap + text) == text
  {
    RunIs(gap + text, White, |gap|);
  }

  lemma HeadingIs(line: string, k: nat, gap: string, text: string)
    requires 1 <= k <= 4 && HeadingOf(line, k, gap, text)
    ensures IsHeading(line) && Hashes(line) == k && TrimStart(line[k..]) == text
  {
    assert line[k] == line[k..][0] == gap[0];
    HashesAre(line, k);
    TrimStartIs(gap, text);
  }

  lemma HeadingKind(line: string)
    requires IsHeading(line)
    ensures KindOf(line) == HeadingLine(HeadingLevel(line), TrimStart(line[Hashes(line)..]))
  {
    assert line[0] == '#';
    TrimPlain(line);
  }

  lemma LineShown(line: string, rest: seq<string>)
    requires KindOf(line).HeadingLine? || KindOf(line).RuleLine?
    ensures Article([line] + rest) == [Render(One(Read(line)))] + Article(rest)
  {
    OneStep(Read(line), Each(Read, rest));
    EachOfOne(Read, line);
    OneShownAs([line], rest, One(Read(line)));
  }

  /** Hashes and a text are a heading: one hash of the second level, two of the third, more of the fourth. */
  lemma HeadingShown(line: string, k: nat, gap: string, text: string, rest: seq<string>)
    requires 1 <= k <= 4 && HeadingOf(line, k, gap, text)
    ensures Article([line] + rest) ==
              [Heading(if k == 1 then 2 else if k == 2 then 3 else 4, Marks.Inline(text))] + Article(rest)
  {
    HeadingIs(line, k, gap, text);
    HeadingKind(line);
    LineShown(line, rest);
  }

  lemma RuleKind(line: string)
    requires IsRule(line) && !Blank(line) && !Fence(line) && !IsHeading(line) && !IsQuote(line)
    ensures KindOf(line) == RuleLine
  {
  }

  lemma RuleAlone(line: string)
    requires RuleForm(line)
    ensures IsRule(line) && !Blank(line) && !Fence(line) && !IsHeading(line) && !IsQuote(line)
  {
    RuleIff(line);
    var t := Trim(line);
    assert t[0] == '-' || t[0] == '*';
    if line[0] == '#' || line[0] == '>' {
      TrimPlain(line);
    }
  }

  lemma RuleShown(line: string, rest: seq<string>)
    requires RuleForm(line)
    ensures Article([line] + rest) == [Hr] + Article(rest)
  {
    RuleAlone(line);
    RuleKind(line);
    LineShown(line, rest);
  }

  // -------------------------------------------------------------- quotes and lists

  /** The lines of a group with the text that each holds. */
  predicate Holds(ls: seq<Line>, texts: seq<string>, g: Group) {
    |ls| == |texts| && forall i | 0 <= i < |ls| :: HoldsOne(ls[i], texts[i], g)
  }

  predicate HoldsOne(l: Line, text: string, g: Group) {
    Belongs(l, g) && ContentOf(l) == text
  }

  lemma ListGroup(ls: seq<Line>, texts: seq<string>, after: seq<Line>, g: Group)
    requires ls != [] && !g.InCode? && !g.InText? && Holds(ls, texts, g)
    requires after != [] ==> !Belongs(after[0], g)
    ensures Blocks(ls + after) == [Many(g, ls)] + Blocks(after) && Each(ContentOf, ls) == texts
  {
    forall i | 0 <= i < |ls|
      ensures Belongs(ls[i], g) && ContentOf(ls[i]) == texts[i]
    {
      assert HoldsOne(ls[i], texts[i], g);
    }
    EachIs(ContentOf, ls, texts);
    GroupStep(ls, after, g);
  }

  lemma ListShown(lines: seq<string>, texts: seq<string>, rest: seq<string>, g: Group)
    requires lines != [] && !g.InCode? && !g.InText? && Holds(Each(Read, lines), texts, g)
    requires rest != [] ==> !Belongs(Each(Read, rest)[0], g)
    ensures Article(lines + rest) == [Render(Many(g, Each(Read, lines)))] + Article(rest)
    ensures Each(ContentOf, Each(Read, lines)) == texts
  {
    ListGroup(Each(Read, lines), texts, Each(Read, rest), g);
    OneShownAs(lines, rest, Many(g, Each(Read, lines)));
  }

  lemma RestTold(rest: seq<string>)
    ensures rest != [] ==> Told(Each(Read, rest)[0], rest[0])
  {
    LinesTold(rest);
  }

  lemma QuoteHolds(line: string, text: string)
    requires line == "> " + text
    ensures HoldsOne(Read(line), text, InQuote)
  {
    QuoteKind(line);
    assert line[2..] == text;
  }

  /** Quoted lines, up to the first that is not one, are one quotation of their texts with spaces between them. */
  lemma QuoteShown(lines: seq<string>, texts: seq<string>, rest: seq<string>)
    requires lines != [] && |texts| == |lines| && forall i | 0 <= i < |lines| :: lines[i] == "> " + texts[i]
    requires rest != [] ==> !QuoteForm(rest[0])
    ensures Article(lines + rest) == [BlockQuote(Marks.Inline(Joined(texts, " ")))] + Article(rest)
  {
    forall i | 0 <= i < |lines|
      ensures HoldsOne(Each(Read, lines)[i], texts[i], InQuote)
    {
      QuoteHolds(lines[i], texts[i]);
    }
    RestTold(rest);
    ListShown(lines, texts, rest, InQuote);
  }

  /** Digits, a dot, white space, and the text behind all of it. */
  predicate NumberOf(line: string, text: string) {
    exists d, n | 1 <= d && d + 1 < n <= |line| :: NumberTextParts(line, d, n, text)
  }

  predicate NumberTextParts(line: string, d: int, n: int, text: string)
    requires 1 <= d && d + 1 < n <= |line|
  {
    && (forall i | 0 <= i < d :: '0' <= line[i] <= '9') && line[d] == '.' && Spaces(line[d + 1..n])
    && line[n..] == text && (text == "" || !White(text[0]))
  }

  lemma MarkedText(line: string, m: nat, n: nat)
    requires m < n <= |line| && Spaces(line[m..n]) && (n == |line| || !White(line[n]))
    ensures m + Run(line[m..], White) == n && White(line[m])
  {
    forall i | 0 <= i < n - m
      ensures White(line[m..][i])
    {
      assert line[m..][i] == line[m..n][i];
    }
    RunIs(line[m..], White, n - m);
  }

  lemma NumberMarkIs(line: string, d: nat, n: nat, text: string)
    requires 1 <= d && d + 1 < n <= |line| && NumberTextParts(line, d, n, text)
    ensures NumberMark(line) == n
  {
    assert n < |line| ==> line[n] == line[n..][0];
    MarkedText(line, d + 1, n);
    RunIs(line, IsDigit, d);
  }

  lemma NumberHolds(line: string, text: string)
    requires NumberOf(line, text)
    ensures HoldsOne(Read(line), text, InNumbers)
  {
    var d, n :| 1 <= d && d + 1 < n <= |line| && NumberTextParts(line, d, n, text);
    NumberMarkIs(line, d, n, text);
    NumberedKind(line);
    assert KindOf(line) == NumberLine(text);
  }

  /** Numbered lines, up to the first that is not one, are one numbered list of their texts. */
  lemma NumbersShown(lines: seq<string>, texts: seq<string>, rest: seq<string>)
    requires lines != [] && |texts| == |lines| && forall i | 0 <= i < |lines| :: NumberOf(lines[i], texts[i])
    requires rest != [] ==> !NumberForm(rest[0])
    ensures Article(lines + rest) == [Ol(Each(Marks.Inline, texts))] + Article(rest)
  {
    forall i | 0 <= i < |lines|
      ensures HoldsOne(Each(Read, lines)[i], texts[i], InNumbers)
    {
      NumberHolds(lines[i], texts[i]);
    }
    RestTold(rest);
    ListShown(lines, texts, rest, InNumbers);
  }

  /** A dash or a star, white space, and the text behind all of it. */
  predicate BulletOf(line: string, text: string) {
    exists n | 2 <= n <= |line| :: BulletTextParts(line, n, text)
  }

  predicate BulletTextParts(line: string, n: int, text: string)
    requires 2 <= n <= |line|
  {
    && (line[0] == '-' || line[0] == '*') && Spaces(line[1..n]) && line[n..] == text
    && (text == "" || !White(text[0]))
  }

  lemma BulletMarkIs(line: string, n: nat, text: string)
    requires 2 <= n <= |line| && BulletTextParts(line, n, text)
    ensures BulletMark(line) == n
  {
    assert n < |line| ==> line[n] == line[n..][0];
    MarkedText(line, 1, n);
  }

  lemma BulletHolds(line: string, text: string)
    requires BulletOf(line, text)
    ensures HoldsOne(Read(line), text, InBullets)
  {
    var n :| 2 <= n <= |line| && BulletTextParts(line, n, text);
    BulletMarkIs(line, n, text);
    BulletKind(line);
    assert KindOf(line) == BulletLine(text);
  }

  /** Lines with a dash or a star, up to the first without, are one list of their texts. */
  lemma BulletsShown(lines: seq<string>, texts: seq<string>, rest: seq<string>)
    requires lines != [] && |texts| == |lines| && forall i | 0 <= i < |lines| :: BulletOf(lines[i], texts[i])
    requires rest != [] ==> !BulletForm(rest[0])
    ensures Article(lines + rest) == [Ul(Each(Marks.Inline, texts))] + Article(rest)
  {
    forall i | 0 <= i < |lines|
      ensures HoldsOne(Each(Read, lines)[i], texts[i], InBullets)
    {
      BulletHolds(lines[i], texts[i]);
    }
    RestTold(rest);
    ListShown(lines, texts, rest, InBullets);
  }
}
