/** The marks inside a line of an article (`wTekscie` of `markdown-kb.tsx`): images, links, code, bold, italics. */
module MarkdownInline {
  import opened Options
  import opened MarkdownLines

  // ---------------------------------------------------------------------- links

  function Lower(c: char): char {
    if 'A' <= c <= 'Z' then c - 'A' + 'a' else c
  }

  /** A prefix in either case of the letters. */
  predicate StartsWith(s: string, prefix: string) {
    |prefix| <= |s| && forall i | 0 <= i < |prefix| :: Lower(s[i]) == prefix[i]
  }

  predicate IsWeb(u: string) {
    StartsWith(u, "http:") || StartsWith(u, "https:")
  }

  /** `LINK_OK` */
  predicate LinkOk(u: string) {
    IsWeb(u) || StartsWith(u, "mailto:") || StartsWith(u, "/")
  }

  /** `OBRAZ_OK` */
  predicate ImageOk(u: string) {
    StartsWith(u, "http://") || StartsWith(u, "https://")
  }

  function LinkTarget(href: string): (r: Option<string>)
    ensures r.Some? ==> LinkOk(r.value)
  {
    if LinkOk(Trim(href)) then Some(Trim(href)) else None
  }

  function ImageTarget(src: string): (r: Option<string>)
    ensures r.Some? ==> ImageOk(r.value)
  {
    if ImageOk(Trim(src)) then Some(Trim(src)) else None
  }

  // --------------------------------------------------------------------- marks

  /** The target is there if it is an allowed one. */
  datatype Mark =
    | ImageMark(alt: string, target: Option<string>)
    | LinkMark(caption: string, target: Option<string>)
    | CodeMark(text: string)
    | StrongMark(text: string)
    | EmMark(text: string)

  datatype Match = Match(mark: Mark, end: nat)

  predicate AllowedMark(m: Mark) {
    match m
    case ImageMark(_, target) => target.Some? ==> ImageOk(target.value)
    case LinkMark(_, target) => target.Some? ==> LinkOk(target.value)
    case _ => true
  }

  /** The first `c` from position `i` on, or the end of the text. */
  function IndexOf(s: string, c: char, i: nat): (j: nat)
    requires i <= |s|
    ensures i <= j <= |s| && c !in s[i..j] && (j < |s| ==> s[j] == c)
    decreases |s| - i
  {
    if i == |s| || s[i] == c then i else IndexOf(s, c, i + 1)
  }

  predicate Has(s: string, i: nat, mark: string) {
    i + |mark| <= |s| && s[i..i + |mark|] == mark
  }

  /** `caption](target)` from position `i` on; the caption has at least `least` characters and the target one. */
  function TargetAt(s: string, i: nat, least: nat): (r: Option<(string, string, nat)>)
    requires i <= |s|
    ensures r.Some? ==> i + |r.value.0| < r.value.2 <= |s|
  {
    var j := IndexOf(s, ']', i);
    if j - i < least || !Has(s, j, "](") then None
    else
      var k := IndexOf(s, ')', j + 2);
      if k == j + 2 || k == |s| then None else Some((s[i..j], s[j + 2..k], k + 1))
  }

  /** `text` closed by `mark`, from position `i` on, with at least one character and none of the mark's. */
  function SpanAt(s: string, i: nat, mark: string): (r: Option<(string, nat)>)
    requires i <= |s| && mark != ""
    ensures r.Some? ==> i < r.value.1 <= |s|
  {
    var j := IndexOf(s, mark[0], i);
    if j == i || !Has(s, j, mark) then None else Some((s[i..j], j + |mark|))
  }

  /** The alternatives of `INLINE` at position `i`, in their order. */
  function MatchAt(s: string, i: nat): (m: Option<Match>)
    requires i < |s|
    ensures m.Some? ==> i < m.value.end <= |s|
    ensures m.Some? && m.value.mark.LinkMark? ==> i + |m.value.mark.caption| < m.value.end
    ensures m.Some? ==> AllowedMark(m.value.mark)
  {
    var image := if Has(s, i, "![") then TargetAt(s, i + 2, 0) else None;
    if image.Some? then Some(Match(ImageMark(image.value.0, ImageTarget(image.value.1)), image.value.2))
    else
      var link := if Has(s, i, "[") then TargetAt(s, i + 1, 1) else None;
      if link.Some? then Some(Match(LinkMark(link.value.0, LinkTarget(link.value.1)), link.value.2))
      else SpanMatchAt(s, i)
  }

  function SpanMatchAt(s: string, i: nat): (m: Option<Match>)
    requires i < |s|
    ensures m.Some? ==> i < m.value.end <= |s| && !m.value.mark.LinkMark? && !m.value.mark.ImageMark?
  {
    var code := if Has(s, i, "`") then SpanAt(s, i + 1, "`") else None;
    if code.Some? then Some(Match(CodeMark(code.value.0), code.value.1))
    else
      var strong := if Has(s, i, "**") then SpanAt(s, i + 2, "**") else None;
      if strong.Some? then Some(Match(StrongMark(strong.value.0), strong.value.1))
      else
        var em := if Has(s, i, "*") then SpanAt(s, i + 1, "*") else None;
        if em.Some? then Some(Match(EmMark(em.value.0), em.value.1)) else None
  }

  /** The leftmost match from position `i` on. */
  function FindMatch(s: string, i: nat): (r: Option<(nat, Match)>)
    requires i <= |s|
    ensures r.Some? ==> i <= r.value.0 < |s| && MatchAt(s, r.value.0) == Some(r.value.1)
    ensures forall j | i <= j < (if r.Some? then r.value.0 else |s|) :: MatchAt(s, j) == None
    decreases |s| - i
  {
    if i == |s| then None
    else if MatchAt(s, i).Some? then Some((i, MatchAt(s, i).value))
    else FindMatch(s, i + 1)
  }

  // ---------------------------------------------------------------------- nodes

  datatype Node =
    | Text(text: string)
    | Image(src: string, alt: string)
    | Link(href: string, children: seq<Node>, newTab: bool)
    | Code(text: string)
    | Strong(text: string)
    | Em(text: string)

  function TextNode(s: string): seq<Node> {
    if s == "" then [] else [Text(s)]
  }

  predicate LinkShown(mark: Mark) {
    mark.LinkMark? && mark.target.Some?
  }

  /** What is shown of a mark; `inner` is what a link shows of its caption. */
  function Shown(mark: Mark, inner: seq<Node>): seq<Node> {
    match mark
    case ImageMark(alt, target) => if target.Some? then [Image(target.value, alt)] else []
    case LinkMark(caption, target) =>
      if target.Some? then [Link(target.value, inner, IsWeb(target.value))] else [Text(caption)]
    case CodeMark(text) => [Code(text)]
    case StrongMark(text) => [Strong(text)]
    case EmMark(text) => [Em(text)]
  }

  /** What is shown of the text from position `last` on. */
  function InlineFrom(s: string, last: nat): seq<Node>
    requires last <= |s|
    decreases |s|, |s| - last
  {
    match FindMatch(s, last)
    case None => TextNode(s[last..])
    case Some((start, m)) =>
      var inner := if LinkShown(m.mark) then InlineFrom(m.mark.caption, 0) else [];
      TextNode(s[last..start]) + Shown(m.mark, inner) + InlineFrom(s, m.end)
  }

  function Inline(s: string): seq<Node> {
    InlineFrom(s, 0)
  }

  lemma Advance(s: string, last: nat, start: nat, m: Match, inner: seq<Node>, out: seq<Node>)
    requires last <= |s| && FindMatch(s, last) == Some((start, m))
    requires inner == if LinkShown(m.mark) then Inline(m.mark.caption) else []
    ensures out + TextNode(s[last..start]) + Shown(m.mark, inner) + InlineFrom(s, m.end) == out + InlineFrom(s, last)
  {
  }

  /** `wTekscie` */
  method ParseInline(s: string) returns (out: seq<Node>)
    ensures out == Inline(s)
    decreases |s|
  {
    out := [];
    var last := 0;
    var found := FindMatch(s, 0);
    while found.Some?
      invariant 0 <= last <= |s| && found == FindMatch(s, last)
      invariant out + InlineFrom(s, last) == Inline(s)
      decreases |s| - last
    {
      var (start, m) := found.value;
      var inner := [];
      if LinkShown(m.mark) {
        inner := ParseInline(m.mark.caption);
      }
      Advance(s, last, start, m, inner, out);
      out := out + TextNode(s[last..start]) + Shown(m.mark, inner);
      last := m.end;
      found := FindMatch(s, last);
    }
    out := out + TextNode(s[last..]);
  }

  // --------------------------------------------------------------- what is linked

  /** Every link, nested ones included, has an allowed target, and opens a new tab exactly if it leads to the web. */
  predicate Allowed(nodes: seq<Node>) {
    forall n | n in nodes :: AllowedNode(n)
  }

  predicate AllowedNode(n: Node) {
    match n
    case Link(href, children, newTab) =>
      LinkOk(href) && (newTab <==> IsWeb(href)) && forall c | c in children :: AllowedNode(c)
    case Image(src, _) => ImageOk(src)
    case _ => true
  }

  lemma ShownAllowed(m: Mark, inner: seq<Node>)
    requires AllowedMark(m) && Allowed(inner)
    ensures Allowed(Shown(m, inner))
  {
  }

  lemma {:induction false} AllAllowed(s: string, last: nat)
    requires last <= |s|
    ensures Allowed(InlineFrom(s, last))
    decreases |s|, |s| - last
  {
    var found := FindMatch(s, last);
    if found.None? {
    } else {
      var m := found.value.1;
      AllAllowed(s, m.end);
      if LinkShown(m.mark) {
        AllAllowed(m.mark.caption, 0);
      }
      ShownAllowed(m.mark, if LinkShown(m.mark) then Inline(m.mark.caption) else []);
    }
  }

  /** Whatever an article says, it shows no image or link with any other target. */
  lemma InlineAllowed(s: string)
    ensures Allowed(Inline(s))
  {
    AllAllowed(s, 0);
  }

  // -------------------------------------------------------------- plain text and links

  /** Text shown on its own is no longer than what is left of the line. */
  lemma {:induction false} TextsAreShort(s: string, last: nat, n: Node)
    requires last <= |s| && n in InlineFrom(s, last) && n.Text?
    ensures |n.text| <= |s| - last
    decreases |s| - last
  {
    var found := FindMatch(s, last);
    if found.None? {
    } else {
      var (start, m) := found.value;
      if n in InlineFrom(s, m.end) {
        TextsAreShort(s, m.end, n);
      }
    }
  }

  lemma MarkIsNotPlain(s: string, start: nat, m: Match)
    requires FindMatch(s, 0) == Some((start, m))
    ensures Inline(s) != TextNode(s)
  {
    if Inline(s) != [] {
      var first := Inline(s)[0];
      if first == Text(s) {
        if start == 0 && Inline(s) == InlineFrom(s, m.end) {
          TextsAreShort(s, m.end, first);
        }
      }
    }
  }

  /** A text is shown as it is exactly when no mark begins anywhere in it. */
  lemma PlainIff(s: string)
    ensures Inline(s) == TextNode(s) <==> forall i | 0 <= i < |s| :: MatchAt(s, i) == None
  {
    var found := FindMatch(s, 0);
    if found.Some? {
      MarkIsNotPlain(s, found.value.0, found.value.1);
      assert MatchAt(s, found.value.0) != None;
    } else {
      assert s[0..] == s;
    }
  }

  lemma {:induction false} IndexIs(s: string, c: char, i: nat, j: nat)
    requires i <= j < |s| && s[j] == c && c !in s[i..j]
    ensures IndexOf(s, c, i) == j
    decreases j - i
  {
  }

  lemma TargetIs(s: string, head: string, caption: string, href: string, least: nat)
    requires s == head + caption + "](" + href + ")"
    requires |caption| >= least && ']' !in caption && href != "" && ')' !in href
    ensures TargetAt(s, |head|, least) == Some((caption, href, |s|))
  {
    var j := |head| + |caption|;
    var k := j + 2 + |href|;
    assert s[|head|..j] == caption && s[j..j + 2] == "](" && s[j + 2..k] == href && s[k] == ')' && |s| == k + 1;
    IndexIs(s, ']', |head|, j);
    IndexIs(s, ')', j + 2, k);
  }

  lemma SpanIs(s: string, head: string, text: string, mark: string)
    requires s == head + text + mark && text != "" && mark != "" && mark[0] !in text
    ensures SpanAt(s, |head|, mark) == Some((text, |s|))
  {
    var j := |head| + |text|;
    assert s[|head|..j] == text && s[j..j + |mark|] == mark && s[j] == mark[0];
    IndexIs(s, mark[0], |head|, j);
  }

  lemma WholeMatch(s: string, m: Mark, inner: seq<Node>)
    requires s != "" && MatchAt(s, 0) == Some(Match(m, |s|))
    requires inner == if LinkShown(m) then Inline(m.caption) else []
    ensures Inline(s) == Shown(m, inner)
  {
    assert s[0..0] == "" && s[|s|..] == "";
    assert FindMatch(s, 0) == Some((0, Match(m, |s|)));
    assert InlineFrom(s, |s|) == [];
    Advance(s, 0, 0, Match(m, |s|), inner, []);
    assert [] + TextNode(s[0..0]) + Shown(m, inner) + InlineFrom(s, |s|) == Shown(m, inner);
  }

  /** A link alone shows its caption under an allowed target, and as mere text under any other. */
  lemma LinkAlone(caption: string, href: string)
    requires caption != "" && ']' !in caption && href != "" && ')' !in href
    ensures Inline("[" + caption + "](" + href + ")")
         == if LinkOk(Trim(href)) then [Link(Trim(href), Inline(caption), IsWeb(Trim(href)))] else [Text(caption)]
  {
    var s := "[" + caption + "](" + href + ")";
    TargetIs(s, "[", caption, href, 1);
    assert s[0..1] == "[" && s[0..2][0] == '[' && "!["[0] == '!';
    var m := LinkMark(caption, LinkTarget(href));
    WholeMatch(s, m, if LinkShown(m) then Inline(caption) else []);
  }

  lemma BeginsWith(s: string, head: string)
    requires head != "" && head <= s
    ensures Has(s, 0, head)
    ensures forall mark: string | mark != "" && mark[0] != head[0] :: !Has(s, 0, mark)
  {
  }

  /** An image alone is shown with its text, under an allowed target only. */
  lemma ImageAlone(alt: string, src: string)
    requires ']' !in alt && src != "" && ')' !in src
    ensures Inline("![" + alt + "](" + src + ")") == if ImageOk(Trim(src)) then [Image(Trim(src), alt)] else []
  {
    var s := "![" + alt + "](" + src + ")";
    TargetIs(s, "![", alt, src, 0);
    BeginsWith(s, "![");
    WholeMatch(s, ImageMark(alt, ImageTarget(src)), []);
  }

  lemma CodeAlone(text: string)
    requires text != "" && '`' !in text
    ensures Inline("`" + text + "`") == [Code(text)]
  {
    var s := "`" + text + "`";
    SpanIs(s, "`", text, "`");
    BeginsWith(s, "`");
    assert "!["[0] != '`' && "["[0] != '`';
    WholeMatch(s, CodeMark(text), []);
  }

  lemma StrongAlone(text: string)
    requires text != "" && '*' !in text
    ensures Inline("**" + text + "**") == [Strong(text)]
  {
    var s := "**" + text + "**";
    SpanIs(s, "**", text, "**");
    BeginsWith(s, "**");
    assert "!["[0] != '*' && "["[0] != '*' && "`"[0] != '*';
    WholeMatch(s, StrongMark(text), []);
  }

  lemma EmAlone(text: string)
    requires text != "" && '*' !in text
    ensures Inline("*" + text + "*") == [Em(text)]
  {
    var s := "*" + text + "*";
    SpanIs(s, "*", text, "*");
    BeginsWith(s, "*");
    assert "!["[0] != '*' && "["[0] != '*' && "`"[0] != '*';
    assert s[1] == text[0] && !Has(s, 0, "**");
    WholeMatch(s, EmMark(text), []);
  }

  // --------------------------------------------------------- the targets, by their characters

  /** The text begins so, each letter in either case. */
  predicate Begins(u: string, lower: string, upper: string) {
    |upper| == |lower| <= |u| && forall i | 0 <= i < |lower| :: u[i] == lower[i] || u[i] == upper[i]
  }

  lemma BeginsIff(u: string, lower: string, upper: string)
    requires |upper| == |lower|
    requires forall i | 0 <= i < |lower| ::
               if 'a' <= lower[i] <= 'z' then upper[i] == lower[i] - 'a' + 'A'
               else upper[i] == lower[i] && !('A' <= lower[i] <= 'Z')
    ensures StartsWith(u, lower) <==> Begins(u, lower, upper)
  {
    if |lower| <= |u| {
      forall i | 0 <= i < |lower|
        ensures Lower(u[i]) == lower[i] <==> u[i] == lower[i] || u[i] == upper[i]
      {
      }
    }
  }

  lemma WebTarget(u: string)
    ensures IsWeb(u) <==> Begins(u, "http:", "HTTP:") || Begins(u, "https:", "HTTPS:")
  {
    BeginsIff(u, "http:", "HTTP:");
    BeginsIff(u, "https:", "HTTPS:");
  }

  /** A link may lead to the web, to a mail address or to a path. */
  lemma LinkTargets(u: string)
    ensures LinkOk(u) <==>
              || Begins(u, "http:", "HTTP:") || Begins(u, "https:", "HTTPS:") || Begins(u, "mailto:", "MAILTO:")
              || (u != "" && u[0] == '/')
  {
    WebTarget(u);
    BeginsIff(u, "mailto:", "MAILTO:");
    BeginsIff(u, "/", "/");
  }

  /** An image comes from the web. */
  lemma ImageTargets(u: string)
    ensures ImageOk(u) <==> Begins(u, "http://", "HTTP://") || Begins(u, "https://", "HTTPS://")
  {
    BeginsIff(u, "http://", "HTTP://");
    BeginsIff(u, "https://", "HTTPS://");
  }
}
