/**
 * The block parser of knowledge-base articles (`markdown-kb.tsx`), over lines with what the regular expressions say
 * of them. A block keeps the lines gathered for it, and `Render` says what they show.
 */
module Markdown {
  import opened Options
  import opened MarkdownLines
  import Marks = MarkdownInline

  /** The loops that gather the lines of a block. */
  datatype Group = InCode | InQuote | InNumbers | InBullets | InText

  /** Whether the loop goes on over a line. */
  predicate Belongs(l: Line, g: Group) {
    match g
    case InCode => !l.kind.FenceLine?
    case InQuote => l.kind.QuoteLine?
    case InNumbers => l.kind.NumberLine?
    case InBullets => l.kind.BulletLine?
    case InText => !l.kind.BlankLine? && !l.startsBlock
  }

  function Opens(k: Kind): Option<Group> {
    match k
    case FenceLine => Some(InCode)
    case QuoteLine(_) => Some(InQuote)
    case NumberLine(_) => Some(InNumbers)
    case BulletLine(_) => Some(InBullets)
    case TextLine => Some(InText)
    case _ => None
  }

  /** A heading, a rule, or the lines gathered by one of the loops. */
  datatype Block = One(line: Line) | Many(group: Group, lines: seq<Line>)

  // --------------------------------------------------------------- specification

  /** The number of leading lines that a loop goes over. */
  function Count(lines: seq<Line>, g: Group): (n: nat)
    ensures n <= |lines|
    ensures forall i | 0 <= i < n :: Belongs(lines[i], g)
    ensures n < |lines| ==> !Belongs(lines[n], g)
  {
    if lines != [] && Belongs(lines[0], g) then 1 + Count(lines[1..], g) else 0
  }

  /** A block, if the line is not blank, and the number of lines it takes, its fences included. */
  datatype Step = Step(block: Option<Block>, used: nat)

  /** Where the loop ends that a first line starts. */
  function Reach(lines: seq<Line>, g: Group): (n: nat)
    requires lines != []
    ensures n <= |lines|
  {
    if g.InCode? || g.InText? then 1 + Count(lines[1..], g) else Count(lines, g)
  }

  /** The block that a loop gathers: without the fence lines, but with the first line of a paragraph. */
  function Gathered(lines: seq<Line>, g: Group, n: nat): Block
    requires (if g.InCode? then 1 else 0) <= n <= |lines|
  {
    Many(g, if g.InCode? then lines[1..n] else lines[..n])
  }

  function Next(lines: seq<Line>): (s: Step)
    requires lines != []
    ensures 1 <= s.used <= |lines|
  {
    match Opens(lines[0].kind)
    case None => Step(if lines[0].kind.BlankLine? then None else Some(One(lines[0])), 1)
    case Some(g) =>
      var n := Reach(lines, g);
      Step(Some(Gathered(lines, g, n)), if g.InCode? && n < |lines| then n + 1 else n)
  }

  function Listed(b: Option<Block>): seq<Block> {
    if b.Some? then [b.value] else []
  }

  /** What one block leaves is parsed like an article of its own. */
  function Blocks(lines: seq<Line>): seq<Block>
    decreases |lines|
  {
    if lines == [] then [] else Listed(Next(lines).block) + Blocks(lines[Next(lines).used..])
  }

  // ------------------------------------------------------------------ the parser

  lemma {:induction false} CountIs(lines: seq<Line>, g: Group, n: nat)
    requires n <= |lines| && (forall i | 0 <= i < n :: Belongs(lines[i], g)) && (n < |lines| ==> !Belongs(lines[n], g))
    ensures Count(lines, g) == n
  {
  }

  /** One of the inner loops, from line `i` on. */
  method Gather(lines: seq<Line>, i: nat, g: Group) returns (buf: seq<Line>, j: nat)
    requires i <= |lines|
    ensures i <= j <= |lines| && buf == lines[i..j] && j - i == Count(lines[i..], g)
  {
    buf, j := [], i;
    while j < |lines| && Belongs(lines[j], g)
      invariant i <= j <= |lines| && buf == lines[i..j]
      invariant forall k | i <= k < j :: Belongs(lines[k], g)
    {
      buf := buf + [lines[j]];
      j := j + 1;
    }
    CountIs(lines[i..], g, j - i);
  }

  /** Behind an unclosed fence the index runs past the last line. */
  predicate Reaches(lines: seq<Line>, i: nat, used: nat, j: nat) {
    j == i + used || (i + used == |lines| && j == |lines| + 1)
  }

  lemma ReachFrom(lines: seq<Line>, i: nat, g: Group, j: nat)
    requires i < |lines| && i <= j <= |lines|
    requires j == if g.InCode? || g.InText? then i + 1 + Count(lines[i + 1..], g) else i + Count(lines[i..], g)
    ensures Reach(lines[i..], g) == j - i
    ensures Gathered(lines[i..], g, j - i) == Many(g, if g.InCode? then lines[i + 1..j] else lines[i..j])
  {
    assert lines[i..][1..] == lines[i + 1..];
    assert lines[i..][..j - i] == lines[i..j];
    assert j > i ==> lines[i..][1..j - i] == lines[i + 1..j];
  }

  lemma NextFrom(lines: seq<Line>, i: nat, g: Group, j: nat)
    requires i < |lines| && i <= j <= |lines| && Opens(lines[i].kind) == Some(g)
    requires j == if g.InCode? || g.InText? then i + 1 + Count(lines[i + 1..], g) else i + Count(lines[i..], g)
    ensures var buf := if g.InCode? then lines[i + 1..j] else lines[i..j];
            Next(lines[i..]) == Step(Some(Many(g, buf)), if g.InCode? && j < |lines| then j - i + 1 else j - i)
  {
    ReachFrom(lines, i, g, j);
    assert lines[i..][0] == lines[i];
  }

  /** The loop of a group, with the first line of a paragraph and behind the closing line of a fence. */
  method GatherBlock(lines: seq<Line>, i: nat, g: Group) returns (block: Option<Block>, j: nat)
    requires i < |lines| && Opens(lines[i].kind) == Some(g)
    ensures block == Next(lines[i..]).block && Reaches(lines, i, Next(lines[i..]).used, j)
  {
    var buf;
    if g.InCode? || g.InText? {
      buf, j := Gather(lines, i + 1, g);
    } else {
      buf, j := Gather(lines, i, g);
    }
    NextFrom(lines, i, g, j);
    if g.InText? {
      buf := [lines[i]] + buf;
      assert buf == lines[i..j];
    }
    block := Some(Many(g, buf));
    if g.InCode? {
      j := j + 1;
    }
  }

  method TakeBlock(lines: seq<Line>, i: nat) returns (block: Option<Block>, j: nat)
    requires i < |lines|
    ensures block == Next(lines[i..]).block && Reaches(lines, i, Next(lines[i..]).used, j)
  {
    match lines[i].kind
    case BlankLine => return None, i + 1;
    case FenceLine => block, j := GatherBlock(lines, i, InCode);
    case HeadingLine(_, _) => return Some(One(lines[i])), i + 1;
    case QuoteLine(_) => block, j := GatherBlock(lines, i, InQuote);
    case RuleLine => return Some(One(lines[i])), i + 1;
    case NumberLine(_) => block, j := GatherBlock(lines, i, InNumbers);
    case BulletLine(_) => block, j := GatherBlock(lines, i, InBullets);
    case TextLine => block, j := GatherBlock(lines, i, InText);
  }

  function RestFrom(lines: seq<Line>, i: nat): seq<Line> {
    if i <= |lines| then lines[i..] else []
  }

  lemma BlocksFrom(lines: seq<Line>, i: nat, block: Option<Block>, j: nat)
    requires i < |lines| && block == Next(lines[i..]).block && Reaches(lines, i, Next(lines[i..]).used, j)
    ensures Blocks(RestFrom(lines, i)) == Listed(block) + Blocks(RestFrom(lines, j))
  {
    assert RestFrom(lines, j) == lines[i..][Next(lines[i..]).used..];
  }

  /** `bloki` */
  method ParseBlocks(lines: seq<Line>) returns (out: seq<Block>)
    ensures out == Blocks(lines)
  {
    out := [];
    var i := 0;
    while i < |lines|
      invariant 0 <= i <= |lines| + 1
      invariant out + Blocks(RestFrom(lines, i)) == Blocks(lines)
    {
      var block, j := TakeBlock(lines, i);
      BlocksFrom(lines, i, block, j);
      Regroup(out, Listed(block), Blocks(RestFrom(lines, j)));
      out := out + Listed(block);
      i := j;
    }
  }

  lemma Regroup<T>(a: seq<T>, b: seq<T>, c: seq<T>)
    ensures (a + b) + c == a + (b + c)
  {
  }

  // --------------------------------------------------------------- composition

  /** The next block is a fence with no closing line. */
  predicate Unclosed(lines: seq<Line>) {
    lines != [] && lines[0].kind.FenceLine? && Count(lines[1..], InCode) == |lines| - 1
  }

  /** A fence is opened and never closed. */
  predicate LeavesFenceOpen(lines: seq<Line>)
    decreases |lines|
  {
    lines != [] && (Unclosed(lines) || LeavesFenceOpen(lines[Next(lines).used..]))
  }

  lemma CountMeetsStop(a: seq<Line>, c: seq<Line>, g: Group)
    requires Count(a, g) < |a| || (c != [] && !Belongs(c[0], g))
    ensures Count(a + c, g) == Count(a, g)
  {
    CountIs(a + c, g, Count(a, g));
  }

  lemma ReachIsLocal(a: seq<Line>, c: seq<Line>, g: Group)
    requires a != [] && c != [] && c[0].kind.BlankLine?
    requires g.InCode? ==> Count(a[1..], g) < |a| - 1
    ensures Reach(a + c, g) == Reach(a, g)
  {
    assert (a + c)[1..] == a[1..] + c;
    if g.InCode? || g.InText? {
      CountMeetsStop(a[1..], c, g);
    } else {
      CountMeetsStop(a, c, g);
    }
  }

  lemma GatheredIsLocal(a: seq<Line>, c: seq<Line>, g: Group, n: nat)
    requires (if g.InCode? then 1 else 0) <= n <= |a|
    ensures Gathered(a + c, g, n) == Gathered(a, g, n)
  {
    assert (a + c)[..n] == a[..n];
    assert n >= 1 ==> (a + c)[1..n] == a[1..n];
  }

  /** A blank line behind a block that is not an open fence changes nothing about the block. */
  lemma NextIsLocal(a: seq<Line>, c: seq<Line>)
    requires a != [] && !Unclosed(a) && c != [] && c[0].kind.BlankLine?
    ensures Next(a + c) == Next(a)
  {
    assert (a + c)[0] == a[0];
    match Opens(a[0].kind)
    case None =>
    case Some(g) =>
      ReachIsLocal(a, c, g);
      GatheredIsLocal(a, c, g, Reach(a, g));
  }

  lemma OpenFenceAlone(a: seq<Line>)
    requires Unclosed(a)
    ensures Blocks(a) == [Many(InCode, a[1..])]
  {
    assert a[1..|a|] == a[1..] && a[|a|..] == [];
  }

  lemma CodeGoesOn(a: seq<Line>, c: seq<Line>)
    requires Count(a, InCode) == |a| && c != [] && c[0].kind.BlankLine?
    ensures Count(a + c, InCode) > |a|
  {
    assert forall i | 0 <= i <= |a| :: Belongs((a + c)[i], InCode);
  }

  lemma OpenFenceGoesOn(a: seq<Line>, c: seq<Line>)
    requires Unclosed(a) && c != [] && c[0].kind.BlankLine?
    ensures Next(a + c).block.Some? && |Next(a + c).block.value.lines| > |a[1..]|
  {
    assert (a + c)[0] == a[0] && (a + c)[1..] == a[1..] + c;
    CodeGoesOn(a[1..], c);
  }

  /** An open fence swallows what follows. */
  lemma OpenFenceSwallows(a: seq<Line>, c: seq<Line>)
    requires Unclosed(a) && c != [] && c[0].kind.BlankLine?
    ensures Blocks(a + c) != Blocks(a) + Blocks(c)
  {
    OpenFenceGoesOn(a, c);
    OpenFenceAlone(a);
    FirstBlock(a + c);
    assert (Blocks(a) + Blocks(c))[0] == Many(InCode, a[1..]);
  }

  lemma FirstBlock(lines: seq<Line>)
    requires lines != [] && Next(lines).block.Some?
    ensures Blocks(lines) != [] && Blocks(lines)[0] == Next(lines).block.value
  {
  }

  lemma CancelFirst<T>(x: seq<T>, a: seq<T>, b: seq<T>, c: seq<T>)
    ensures x + a == x + b + c <==> a == b + c
  {
    assert (x + a)[|x|..] == a;
    assert (x + b + c)[|x|..] == b + c;
  }

  /** The next block of `a` is found in `a + c`; what is left composes just as the whole does. */
  lemma ComposesFromNext(a: seq<Line>, c: seq<Line>)
    requires a != [] && !Unclosed(a) && c != [] && c[0].kind.BlankLine?
    ensures var rest := a[Next(a).used..];
            Blocks(a + c) == Blocks(a) + Blocks(c) <==> Blocks(rest + c) == Blocks(rest) + Blocks(c)
  {
    NextIsLocal(a, c);
    var n := Next(a).used;
    assert (a + c)[n..] == a[n..] + c;
    CancelFirst(Listed(Next(a).block), Blocks(a[n..] + c), Blocks(a[n..]), Blocks(c));
  }

  lemma {:induction false} ComposesIff(a: seq<Line>, c: seq<Line>)
    requires c != [] && c[0].kind.BlankLine?
    ensures Blocks(a + c) == Blocks(a) + Blocks(c) <==> !LeavesFenceOpen(a)
    decreases |a|
  {
    if a == [] {
      assert a + c == c;
    } else if Unclosed(a) {
      OpenFenceSwallows(a, c);
    } else {
      var rest := a[Next(a).used..];
      assert LeavesFenceOpen(a) == LeavesFenceOpen(rest);
      ComposesFromNext(a, c);
      ComposesIff(rest, c);
    }
  }

  // -------------------------------------------------------- every line once, in order

  /** The lines that each step takes. */
  function Pieces(lines: seq<Line>): seq<seq<Line>>
    decreases |lines|
  {
    if lines == [] then [] else [lines[..Next(lines).used]] + Pieces(lines[Next(lines).used..])
  }

  function Flatten<T>(s: seq<seq<T>>): seq<T> {
    if s == [] then [] else s[0] + Flatten(s[1..])
  }

  function Each<T, U>(f: T -> U, s: seq<T>): (r: seq<U>)
    ensures |r| == |s|
  {
    seq(|s|, i requires 0 <= i < |s| => f(s[i]))
  }

  lemma EachOfSum<T, U>(f: T -> U, a: seq<T>, b: seq<T>)
    ensures Each(f, a + b) == Each(f, a) + Each(f, b)
  {
  }

  lemma ReachAlone(lines: seq<Line>, g: Group, u: nat)
    requires lines != [] && Reach(lines, g) <= u <= |lines| && 1 <= u
    requires u > Reach(lines, g) ==> g.InCode? && u == Reach(lines, g) + 1
    ensures Reach(lines[..u], g) == Reach(lines, g)
  {
    var n := Reach(lines, g);
    if g.InCode? || g.InText? {
      assert lines[..u][1..] == lines[1..][..u - 1];
      CountIs(lines[..u][1..], g, n - 1);
    } else {
      CountIs(lines[..u], g, n);
    }
  }

  /** The lines that a step takes give the same step on their own. */
  lemma StandsAlone(lines: seq<Line>)
    requires lines != []
    ensures Next(lines[..Next(lines).used]) == Next(lines)
  {
    var u := Next(lines).used;
    match Opens(lines[0].kind)
    case None =>
    case Some(g) =>
      ReachAlone(lines, g, u);
      var n := Reach(lines, g);
      assert lines[..u][..n] == lines[..n];
      assert n >= 1 ==> lines[..u][1..n] == lines[1..n];
  }

  lemma PieceParsed(lines: seq<Line>)
    requires lines != []
    ensures Blocks(lines[..Next(lines).used]) == Listed(Next(lines).block)
  {
    StandsAlone(lines);
    assert lines[..Next(lines).used][Next(lines).used..] == [];
  }

  /** What each step finds: a block, or nothing in a blank line. */
  function Found(lines: seq<Line>): seq<Option<Block>>
    decreases |lines|
  {
    if lines == [] then [] else [Next(lines).block] + Found(lines[Next(lines).used..])
  }

  /** The line that opens a fence, the lines in it, and the line that closes it, if there is one. */
  predicate Fenced(piece: seq<Line>, code: seq<Line>) {
    && piece != [] && piece[0].kind.FenceLine? && (forall l | l in code :: !l.kind.FenceLine?)
    && var last := piece[|piece| - 1];
    && (piece == [piece[0]] + code || (last.kind.FenceLine? && piece == [piece[0]] + code + [last]))
  }

  /** The lines of a piece are a blank line, or those the block keeps, with its fences if it is code. */
  predicate Keeps(piece: seq<Line>, b: Option<Block>) {
    match b
    case None => |piece| == 1 && piece[0].kind.BlankLine?
    case Some(One(line)) => piece == [line]
    case Some(Many(InCode, lines)) => Fenced(piece, lines)
    case Some(Many(_, lines)) => piece == lines && lines != []
  }

  lemma CodeKeeps(lines: seq<Line>)
    requires lines != [] && lines[0].kind.FenceLine?
    ensures Keeps(lines[..Next(lines).used], Next(lines).block)
  {
    var n, u := Reach(lines, InCode), Next(lines).used;
    assert lines[..u][0] == lines[0] && lines[..n] == [lines[0]] + lines[1..n];
    forall l | l in lines[1..n]
      ensures !l.kind.FenceLine?
    {
      var k :| 0 <= k < n - 1 && lines[1..][k] == l;
      assert Belongs(lines[1..][k], InCode);
    }
    if n < |lines| {
      assert lines[1..][n - 1] == lines[n] && lines[..u] == [lines[0]] + lines[1..n] + [lines[n]];
    }
  }

  lemma StepKeeps(lines: seq<Line>)
    requires lines != []
    ensures Keeps(lines[..Next(lines).used], Next(lines).block)
  {
    if lines[0].kind.FenceLine? {
      CodeKeeps(lines);
    }
  }

  lemma FlattenCut<T>(all: seq<T>, u: nat, rest: seq<seq<T>>)
    requires u <= |all| && Flatten(rest) == all[u..]
    ensures Flatten([all[..u]] + rest) == all
  {
    FlattenFirst(all[..u], rest);
  }

  lemma {:induction false} PiecesInOrder(lines: seq<Line>)
    ensures Flatten(Pieces(lines)) == lines
    decreases |lines|
  {
    if lines == [] {
    } else {
      var u := Next(lines).used;
      PiecesInOrder(lines[u..]);
      FlattenCut(lines, u, Pieces(lines[u..]));
    }
  }

  lemma {:induction false} FoundForEach(lines: seq<Line>)
    ensures |Found(lines)| == |Pieces(lines)|
    decreases |lines|
  {
    if lines == [] {
    } else {
      FoundForEach(lines[Next(lines).used..]);
    }
  }

  lemma {:induction false} PieceKept(lines: seq<Line>, i: nat)
    requires i < |Pieces(lines)| == |Found(lines)|
    ensures Keeps(Pieces(lines)[i], Found(lines)[i])
    decreases |lines|
  {
    var step := Next(lines);
    var rest := lines[step.used..];
    assert Pieces(lines) == [lines[..step.used]] + Pieces(rest) && Found(lines) == [step.block] + Found(rest);
    if i == 0 {
      StepKeeps(lines);
    } else {
      assert Pieces(lines)[i] == Pieces(rest)[i - 1] && Found(lines)[i] == Found(rest)[i - 1];
      PieceKept(rest, i - 1);
    }
  }

  lemma {:induction false} FoundAreBlocks(lines: seq<Line>)
    ensures Blocks(lines) == Flatten(Each(Listed, Found(lines)))
    decreases |lines|
  {
    if lines == [] {
    } else {
      var rest := lines[Next(lines).used..];
      FoundAreBlocks(rest);
      EachOfSum(Listed, [Next(lines).block], Found(rest));
      FlattenFirst(Listed(Next(lines).block), Each(Listed, Found(rest)));
      assert Each(Listed, [Next(lines).block]) == [Listed(Next(lines).block)];
    }
  }

  /**
   * Every line is taken once, in order, and kept: the article is the pieces one after another, each piece the lines of
   * what was found in it, and what was found, blank lines aside, are the blocks.
   */
  lemma EveryLineOnce(lines: seq<Line>)
    ensures Flatten(Pieces(lines)) == lines
    ensures |Found(lines)| == |Pieces(lines)|
    ensures forall i | 0 <= i < |Pieces(lines)| :: Keeps(Pieces(lines)[i], Found(lines)[i])
    ensures Blocks(lines) == Flatten(Each(Listed, Found(lines)))
  {
    PiecesInOrder(lines);
    FoundForEach(lines);
    FoundAreBlocks(lines);
    forall i | 0 <= i < |Pieces(lines)|
      ensures Keeps(Pieces(lines)[i], Found(lines)[i])
    {
      PieceKept(lines, i);
    }
  }

  /** The blocks are those of the pieces, parsed apart. */
  lemma {:induction false} BlocksOfPieces(lines: seq<Line>)
    ensures Blocks(lines) == Flatten(Each(Blocks, Pieces(lines)))
    decreases |lines|
  {
    if lines == [] {
    } else {
      var u := Next(lines).used;
      var rest := Pieces(lines[u..]);
      PieceParsed(lines);
      BlocksOfPieces(lines[u..]);
      EachOfSum(Blocks, [lines[..u]], rest);
      FlattenFirst(Blocks(lines[..u]), Each(Blocks, rest));
      assert Each(Blocks, [lines[..u]]) == [Blocks(lines[..u])];
    }
  }

  lemma FlattenFirst<T>(x: seq<T>, s: seq<seq<T>>)
    ensures Flatten([x] + s) == x + Flatten(s)
  {
  }

  /** A piece holds at least one line and at most one block. */
  lemma {:induction false} OneBlockEach(lines: seq<Line>, p: seq<Line>)
    requires p in Pieces(lines)
    ensures p != [] && |Blocks(p)| <= 1
    decreases |lines|
  {
    var u := Next(lines).used;
    if p == lines[..u] {
      PieceParsed(lines);
    } else {
      OneBlockEach(lines[u..], p);
    }
  }

  // ------------------------------------------------------------------ the article

  /** What is shown of a block. */
  datatype Element =
    | Pre(text: string)
    | Heading(level: int, nodes: seq<Marks.Node>)
    | BlockQuote(nodes: seq<Marks.Node>)
    | Hr
    | Ol(items: seq<seq<Marks.Node>>)
    | Ul(items: seq<seq<Marks.Node>>)
    | P(nodes: seq<Marks.Node>)

  function Joined(parts: seq<string>, gap: string): string {
    if parts == [] then ""
    else if |parts| == 1 then parts[0]
    else parts[0] + gap + Joined(parts[1..], gap)
  }

  function TextOf(l: Line): string {
    l.text
  }

  function ContentOf(l: Line): string {
    match l.kind
    case HeadingLine(_, content) => content
    case QuoteLine(content) => content
    case NumberLine(content) => content
    case BulletLine(content) => content
    case _ => l.text
  }

  function Render(b: Block): Element {
    match b
    case One(line) => if line.kind.HeadingLine? then Heading(line.kind.level, Marks.Inline(line.kind.content)) else Hr
    case Many(InCode, lines) => Pre(Joined(Each(TextOf, lines), "\n"))
    case Many(InQuote, lines) => BlockQuote(Marks.Inline(Joined(Each(ContentOf, lines), " ")))
    case Many(InNumbers, lines) => Ol(Each(Marks.Inline, Each(ContentOf, lines)))
    case Many(InBullets, lines) => Ul(Each(Marks.Inline, Each(ContentOf, lines)))
    case Many(InText, lines) => P(Marks.Inline(Joined(Each(TextOf, lines), " ")))
  }

  function Article(lines: seq<string>): seq<Element> {
    Each(Render, Blocks(Each(Read, lines)))
  }

  lemma BlankAddsNothing(c: seq<Line>)
    requires c != [] && c[0].kind.BlankLine?
    ensures Blocks(c) == Blocks(c[1..])
  {
  }

  lemma EachAround<T, U>(f: T -> U, a: seq<T>, x: T, b: seq<T>)
    ensures Each(f, a + [x] + b) == Each(f, a) + [f(x)] + Each(f, b)
  {
  }

  lemma BlankBetween(a: seq<Line>, blank: Line, c: seq<Line>)
    requires blank.kind.BlankLine? && !LeavesFenceOpen(a)
    ensures Blocks(a + [blank] + c) == Blocks(a) + Blocks(c)
  {
    assert a + [blank] + c == a + ([blank] + c);
    ComposesIff(a, [blank] + c);
    BlankAddsNothing([blank] + c);
  }

  /** Two texts with a blank line between them show what both show, if the first closes its fences. */
  lemma ArticleComposes(a: seq<string>, blank: string, b: seq<string>)
    requires Blank(blank) && !LeavesFenceOpen(Each(Read, a))
    ensures Article(a + [blank] + b) == Article(a) + Article(b)
  {
    EachAround(Read, a, blank, b);
    KindsAgree(blank);
    BlankBetween(Each(Read, a), Read(blank), Each(Read, b));
    EachOfSum(Render, Blocks(Each(Read, a)), Blocks(Each(Read, b)));
  }

  predicate AllowedElement(e: Element) {
    match e
    case Heading(_, nodes) => Marks.Allowed(nodes)
    case BlockQuote(nodes) => Marks.Allowed(nodes)
    case P(nodes) => Marks.Allowed(nodes)
    case Ol(items) => forall nodes | nodes in items :: Marks.Allowed(nodes)
    case Ul(items) => forall nodes | nodes in items :: Marks.Allowed(nodes)
    case _ => true
  }

  lemma EachIsOf<T, U>(f: T -> U, s: seq<T>, y: U) returns (x: T)
    requires y in Each(f, s)
    ensures x in s && f(x) == y
  {
    var i :| 0 <= i < |s| && Each(f, s)[i] == y;
    x := s[i];
  }

  lemma ItemsAllowed(contents: seq<string>)
    ensures forall nodes | nodes in Each(Marks.Inline, contents) :: Marks.Allowed(nodes)
  {
    forall nodes | nodes in Each(Marks.Inline, contents)
      ensures Marks.Allowed(nodes)
    {
      var content := EachIsOf(Marks.Inline, contents, nodes);
      Marks.InlineAllowed(content);
    }
  }

  lemma RenderAllowed(b: Block)
    ensures AllowedElement(Render(b))
  {
    match b
    case One(line) =>
      if line.kind.HeadingLine? {
        Marks.InlineAllowed(line.kind.content);
      }
    case Many(InCode, lines) =>
    case Many(InQuote, lines) => Marks.InlineAllowed(Joined(Each(ContentOf, lines), " "));
    case Many(InText, lines) => Marks.InlineAllowed(Joined(Each(TextOf, lines), " "));
    case Many(_, lines) => ItemsAllowed(Each(ContentOf, lines));
  }

  /** No article, whatever it says, shows an image or a link with a target that is not allowed. */
  lemma ArticleAllowed(lines: seq<string>, e: Element)
    requires e in Article(lines)
    ensures AllowedElement(e)
  {
    var b := EachIsOf(Render, Blocks(Each(Read, lines)), e);
    RenderAllowed(b);
  }
}
