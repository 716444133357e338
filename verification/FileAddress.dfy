/** The address of a file in DirectAdmin's file manager (`client.ts`), and what URL resolution makes of it. */
module FileAddress {
  import opened Options
  import opened PercentCode

  // ------------------------------------------------------------------ segments

  function Split(s: string): (r: seq<string>)
    ensures |r| >= 1
    ensures forall t | t in r :: '/' !in t
  {
    if s == "" then [""]
    else
      var rest := Split(s[1..]);
      if s[0] == '/' then [""] + rest else [[s[0]] + rest[0]] + rest[1..]
  }

  function Join(segments: seq<string>): string {
    if segments == [] then ""
    else if |segments| == 1 then segments[0]
    else segments[0] + "/" + Join(segments[1..])
  }

  function NonEmpty(segments: seq<string>): (r: seq<string>)
    ensures forall t :: t in r <==> t in segments && t != ""
  {
    if segments == [] then []
    else if segments[0] == "" then NonEmpty(segments[1..])
    else [segments[0]] + NonEmpty(segments[1..])
  }

  /** It keeps what is left in order, repeated segments included. */
  lemma {:induction false} NonEmptyOfSum(a: seq<string>, t: string, b: seq<string>)
    ensures NonEmpty(a + [t] + b) == NonEmpty(a) + (if t == "" then [] else [t]) + NonEmpty(b)
  {
    if a == [] {
      assert a + [t] + b == [t] + b && ([t] + b)[1..] == b;
    } else {
      NonEmptyOfSum(a[1..], t, b);
      assert (a + [t] + b)[0] == a[0] && (a + [t] + b)[1..] == a[1..] + [t] + b;
    }
  }

  function EncodeEach(segments: seq<string>): (r: seq<string>)
    ensures |r| == |segments| && forall i | 0 <= i < |r| :: r[i] == Encode(segments[i])
  {
    if segments == [] then [] else [Encode(segments[0])] + EncodeEach(segments[1..])
  }

  function DecodeEach(segments: seq<string>): Option<seq<string>> {
    if segments == [] then Some([])
    else
      var first, rest := Decode(segments[0]), DecodeEach(segments[1..]);
      if first.None? || rest.None? then None else Some([first.value] + rest.value)
  }

  predicate HasDots(segments: seq<string>) {
    exists t | t in segments :: t == "." || t == ".."
  }

  const MANAGER := "CMD_FILE_MANAGER"

  function Under(manager: string, segments: seq<string>): string {
    "/" + manager + "/" + Join(EncodeEach(segments))
  }

  /** `adresPlikuMenedzera` */
  function Address(path: string): Option<string> {
    var segments := NonEmpty(Split(path));
    if HasDots(segments) then None else Some(Under(MANAGER, segments))
  }

  /** The segments are what stands between the slashes. */
  lemma {:induction false} JoinOfSplit(s: string)
    ensures Join(Split(s)) == s && forall t | t in Split(s) :: '/' !in t
  {
    if s == "" {
    } else {
      JoinOfSplit(s[1..]);
      assert [s[0]] + s[1..] == s;
      if s[0] == '/' {
        JoinEmpty(Split(s[1..]));
      } else {
        JoinLetter(s[0], Split(s[1..]));
      }
    }
  }

  lemma JoinEmpty(rest: seq<string>)
    requires rest != []
    ensures Join([""] + rest) == "/" + Join(rest)
  {
    assert ([""] + rest)[1..] == rest;
  }

  lemma JoinLetter(c: char, rest: seq<string>)
    requires rest != []
    ensures Join([[c] + rest[0]] + rest[1..]) == [c] + Join(rest)
  {
    assert ([[c] + rest[0]] + rest[1..])[1..] == rest[1..];
  }

  // ---------------------------------------------------------------- round trip

  lemma {:induction false} SplitThen(s: string, t: string)
    requires '/' !in s
    ensures Split(s + "/" + t) == [s] + Split(t)
  {
    if s == "" {
      assert (s + "/" + t)[1..] == t;
    } else {
      SplitThen(s[1..], t);
      assert (s + "/" + t)[1..] == s[1..] + "/" + t;
      assert [s[0]] + s[1..] == s;
    }
  }

  lemma {:induction false} SplitWhole(s: string)
    requires '/' !in s
    ensures Split(s) == [s]
  {
    if s == "" {
    } else {
      SplitWhole(s[1..]);
      assert [s[0]] + s[1..] == s;
    }
  }

  lemma {:induction false} SplitOfJoin(segments: seq<string>)
    requires segments != [] && forall t | t in segments :: '/' !in t
    ensures Split(Join(segments)) == segments
  {
    if |segments| == 1 {
      SplitWhole(segments[0]);
    } else {
      SplitOfJoin(segments[1..]);
      SplitThen(segments[0], Join(segments[1..]));
    }
  }

  lemma EncodedHasNoSlash(s: string)
    ensures '/' !in Encode(s)
  {
    if '/' in Encode(s) {
      EncodedAlphabet(s, '/');
    }
  }

  lemma EncodedNonEmpty(s: string)
    requires s != ""
    ensures Encode(s) != ""
  {
  }

  lemma {:induction false} DecodeOfEncodeEach(segments: seq<string>)
    requires "" !in segments
    ensures DecodeEach(NonEmpty(EncodeEach(segments))) == Some(segments)
  {
    if segments == [] {
    } else {
      DecodeOfEncodeEach(segments[1..]);
      DecodeOfEncode(segments[0]);
      EncodedNonEmpty(segments[0]);
      var rest := NonEmpty(EncodeEach(segments[1..]));
      assert EncodeEach(segments)[1..] == EncodeEach(segments[1..]);
      assert ([Encode(segments[0])] + rest)[1..] == rest;
      assert [segments[0]] + segments[1..] == segments;
    }
  }

  lemma EncodedSplit(segments: seq<string>)
    ensures Split(Join(EncodeEach(segments))) == if segments == [] then [""] else EncodeEach(segments)
  {
    var encoded := EncodeEach(segments);
    forall t | t in encoded
      ensures '/' !in t
    {
      var i :| 0 <= i < |encoded| && encoded[i] == t;
      EncodedHasNoSlash(segments[i]);
    }
    if segments != [] {
      SplitOfJoin(encoded);
    }
  }

  lemma SplitPrefixed(p: string, s: string)
    requires '/' !in p
    ensures Split("/" + p + "/" + s) == ["", p] + Split(s)
  {
    var rest := p + "/" + s;
    SplitThen(p, s);
    SplitThen("", rest);
    SlashFirst(p, s);
    assert ["", p] + Split(s) == [""] + ([p] + Split(s));
  }

  lemma SlashFirst(p: string, s: string)
    ensures "/" + p + "/" + s == "" + "/" + (p + "/" + s)
  {
  }

  lemma UnderSegments(manager: string, segments: seq<string>)
    requires '/' !in manager
    ensures Split(Under(manager, segments)) == ["", manager] + if segments == [] then [""] else EncodeEach(segments)
  {
    EncodedSplit(segments);
    SplitPrefixed(manager, Join(EncodeEach(segments)));
  }

  lemma UnderRoundTrip(manager: string, segments: seq<string>)
    requires '/' !in manager && "" !in segments
    ensures var parts := Split(Under(manager, segments));
            && |parts| > 2 && parts[..2] == ["", manager]
            && DecodeEach(NonEmpty(parts[2..])) == Some(segments)
  {
    var parts := Split(Under(manager, segments));
    UnderSegments(manager, segments);
    DecodeOfEncodeEach(segments);
    assert parts[2..] == if segments == [] then [""] else EncodeEach(segments);
    assert NonEmpty([""]) == [];
  }

  /** The segments of an address after its prefix decode to exactly the non-empty segments of the path. */
  lemma AddressRoundTrip(path: string)
    requires Address(path).Some?
    ensures var parts := Split(Address(path).value);
            && |parts| > 2 && parts[..2] == ["", "CMD_FILE_MANAGER"]
            && DecodeEach(NonEmpty(parts[2..])) == Some(NonEmpty(Split(path)))
  {
    UnderRoundTrip(MANAGER, NonEmpty(Split(path)));
  }

  /** A path is refused exactly when one of its segments is a dot segment. */
  lemma RefusedIff(path: string)
    ensures Address(path).None? <==> exists t | t in Split(path) :: t == "." || t == ".."
  {
    if t :| t in Split(path) && (t == "." || t == "..") {
      assert t in NonEmpty(Split(path));
    }
  }

  /** Paths share an address exactly when they have the same non-empty segments. */
  lemma SameAddressIff(path: string, other: string)
    requires Address(path).Some? && Address(other).Some?
    ensures Address(path) == Address(other) <==> NonEmpty(Split(path)) == NonEmpty(Split(other))
  {
    AddressRoundTrip(path);
    AddressRoundTrip(other);
  }

  // -------------------------------------------------------------- URL resolution

  predicate StartsEscapedDot(t: string) {
    |t| >= 3 && t[0] == '%' && t[1] == '2' && (t[2] == 'e' || t[2] == 'E')
  }

  /** The text with every `%2e` read as a dot. */
  function Undotted(t: string): string {
    if t == "" then ""
    else if StartsEscapedDot(t) then "." + Undotted(t[3..])
    else [t[0]] + Undotted(t[1..])
  }

  predicate IsDot(t: string) {
    Undotted(t) == "."
  }

  predicate IsDotDot(t: string) {
    Undotted(t) == ".."
  }

  /** How a dot may be written. */
  predicate DotForm(t: string) {
    t == "." || t == "%2e" || t == "%2E"
  }

  lemma {:induction false} UndottedIs(t: string)
    ensures Undotted(t) == "" <==> t == ""
    ensures Undotted(t) == "." <==> DotForm(t)
  {
    if t == "" {
    } else if StartsEscapedDot(t) {
      assert Undotted(t) == "." + Undotted(t[3..]);
      UndottedIs(t[3..]);
      assert t == t[..3] + t[3..];
    } else {
      assert Undotted(t) == [t[0]] + Undotted(t[1..]);
      UndottedIs(t[1..]);
      assert t == [t[0]] + t[1..];
    }
  }

  lemma FirstDot(t: string, i: nat)
    requires i == (if StartsEscapedDot(t) then 3 else 1) && t != "" && Undotted(t)[0] == '.'
    ensures i <= |t| && DotForm(t[..i]) && Undotted(t) == "." + Undotted(t[i..])
  {
    if StartsEscapedDot(t) {
      assert Undotted(t) == "." + Undotted(t[3..]);
      assert t[..3] == ['%', '2', t[2]];
    } else {
      assert Undotted(t) == [t[0]] + Undotted(t[1..]);
      assert t[..1] == [t[0]];
    }
  }

  lemma DotThen(t: string, i: nat)
    requires i <= |t| && DotForm(t[..i])
    ensures i == (if StartsEscapedDot(t) then 3 else 1) && t != "" && Undotted(t) == "." + Undotted(t[i..])
  {
    assert t[..i] + t[i..] == t;
    if t[..i] == "." {
      assert t[0] == '.';
    } else {
      assert t[0] == '%' && t[1] == '2' && t[2] == t[..i][2];
    }
  }

  /** The dot segments are one dot or two, each written in one of three ways. */
  lemma DotSegments(t: string)
    ensures IsDot(t) <==> DotForm(t)
    ensures IsDotDot(t) <==> exists i | 0 <= i <= |t| :: DotForm(t[..i]) && DotForm(t[i..])
  {
    UndottedIs(t);
    if IsDotDot(t) {
      var i := if StartsEscapedDot(t) then 3 else 1;
      FirstDot(t, i);
      assert ("." + Undotted(t[i..]))[1..] == Undotted(t[i..]) && ".."[1..] == ".";
      UndottedIs(t[i..]);
    }
    if i :| 0 <= i <= |t| && DotForm(t[..i]) && DotForm(t[i..]) {
      DotThen(t, i);
      UndottedIs(t[i..]);
    }
  }

  /** Up to the next slash. */
  function FirstSegment(s: string): (t: string)
    ensures t <= s && '/' !in t && (|t| == |s| || s[|t|] == '/')
  {
    if s == "" || s[0] == '/' then "" else [s[0]] + FirstSegment(s[1..])
  }

  /** The output buffer without its last segment and the slash before it. */
  function WithoutLast(output: string): (r: string)
    ensures |r| <= |output|
  {
    if output == "" || output[|output| - 1] == '/' then output[..if output == "" then 0 else |output| - 1]
    else WithoutLast(output[..|output| - 1])
  }

  /** "Remove Dot Segments" (RFC 3986, section 5.2.4): input buffer and output buffer. */
  function RemoveDots(input: string, output: string): string
    decreases |input|
  {
    if input == "" then output
    else if input[0] != '/' then
      var t := FirstSegment(input);
      if IsDot(t) || IsDotDot(t) then RemoveDots(input[if |t| == |input| then |t| else |t| + 1..], output)
      else RemoveDots(input[|t|..], output + t)
    else
      var t := FirstSegment(input[1..]);
      var rest := input[1 + |t|..];
      if IsDot(t) then RemoveDots(if rest == "" then "/" else rest, output)
      else if IsDotDot(t) then RemoveDots(if rest == "" then "/" else rest, WithoutLast(output))
      else RemoveDots(rest, output + "/" + t)
  }

  predicate NoDots(segments: seq<string>) {
    forall t | t in segments :: !IsDot(t) && !IsDotDot(t)
  }

  lemma AfterLetter(c: char, rest: string)
    requires c != '/'
    ensures FirstSegment([c] + rest) == [c] + FirstSegment(rest)
    ensures Split([c] + rest) == [[c] + Split(rest)[0]] + Split(rest)[1..]
  {
    assert ([c] + rest)[1..] == rest;
  }

  lemma {:induction false} FirstOfSplit(s: string)
    ensures var t := FirstSegment(s);
            Split(s) == if |t| == |s| then [s] else [t] + Split(s[|t| + 1..])
  {
    if s == "" || s[0] == '/' {
    } else {
      var rest := s[1..];
      assert s == [s[0]] + rest;
      FirstOfSplit(rest);
      AfterLetter(s[0], rest);
      var t := FirstSegment(rest);
      assert |t| < |rest| ==> rest[|t| + 1..] == s[|t| + 2..];
    }
  }

  lemma NoDotsStep(path: string)
    requires path != "" && path[0] == '/' && NoDots(Split(path[1..]))
    ensures var t := FirstSegment(path[1..]);
            var rest := path[1 + |t|..];
            && !IsDot(t) && !IsDotDot(t) && path == "/" + t + rest
            && (rest != "" ==> rest[0] == '/' && NoDots(Split(rest[1..])))
  {
    var t := FirstSegment(path[1..]);
    var rest := path[1 + |t|..];
    FirstOfSplit(path[1..]);
    assert Split(path[1..])[0] == t;
    if rest != "" {
      assert path[1..][|t| + 1..] == rest[1..];
      assert forall u | u in Split(rest[1..]) :: u in [t] + Split(rest[1..]);
    }
  }

  lemma KeepSegment(path: string, output: string)
    requires path != "" && path[0] == '/'
    requires !IsDot(FirstSegment(path[1..])) && !IsDotDot(FirstSegment(path[1..]))
    ensures var t := FirstSegment(path[1..]);
            RemoveDots(path, output) == RemoveDots(path[1 + |t|..], output + "/" + t)
  {
  }

  /** An absolute path with no dot segments is left as it is. */
  lemma {:induction false} NothingToRemove(path: string, output: string)
    requires path == "" || (path[0] == '/' && NoDots(Split(path[1..])))
    ensures RemoveDots(path, output) == output + path
    decreases |path|
  {
    if path == "" {
      assert output + path == output;
    } else {
      NoDotsStep(path);
      KeepSegment(path, output);
      var t := FirstSegment(path[1..]);
      var rest := path[1 + |t|..];
      assert RemoveDots(path, output) == output + path by {
        NothingToRemove(rest, output + "/" + t);
        Regroup(output, t, rest);
      }
    }
  }

  lemma Regroup(output: string, t: string, rest: string)
    ensures (output + "/" + t) + rest == output + ("/" + t + rest)
  {
  }

  lemma OneOctetThen(c: char, t: string)
    requires c as int < 0x80 && |t| >= 3 && t[0] == '%'
    requires HexValue(t[1]).Some? && HexValue(t[2]).Some?
    requires 16 * HexValue(t[1]).value + HexValue(t[2]).value == c as int
    ensures Decode(t) == Prepend(c, Decode(t[3..]))
  {
    OctetsRead(c);
    assert Unescape(t[3..], 0) == Some([]);
    var b: Octet := c as int;
    assert [b] + [] == [b];
    assert Unescape(t, 1) == Some([b]);
  }

  lemma EscapedDotThen(t: string)
    requires StartsEscapedDot(t)
    ensures Decode(t) == Prepend('.', Decode(t[3..]))
  {
    assert HexValue('2') == Some(2) && HexValue('e') == Some(14) && HexValue('E') == Some(14);
    OneOctetThen('.', t);
  }

  lemma {:induction false} DotsDecode(t: string)
    requires forall c | c in Undotted(t) :: c == '.'
    ensures Decode(t) == Some(Undotted(t))
  {
    if t == "" {
    } else {
      assert Undotted(t)[0] in Undotted(t);
      var rest := if StartsEscapedDot(t) then t[3..] else t[1..];
      assert Undotted(t) == "." + Undotted(rest);
      assert forall c | c in Undotted(rest) :: c in Undotted(t);
      DotsDecode(rest);
      if StartsEscapedDot(t) {
        EscapedDotThen(t);
      }
    }
  }

  /** An encoded segment is a dot segment, in any form, only if the segment is one. */
  lemma EncodedDots(s: string)
    requires s != "." && s != ".."
    ensures !IsDot(Encode(s)) && !IsDotDot(Encode(s))
  {
    DecodeOfEncode(s);
    if IsDot(Encode(s)) || IsDotDot(Encode(s)) {
      DotsDecode(Encode(s));
    }
  }

  lemma PathIsKept(a: string, p: string, s: string)
    requires a == "/" + p + "/" + s
    requires '/' !in p && !IsDot(p) && !IsDotDot(p) && NoDots(Split(s))
    ensures RemoveDots(a, "") == a
  {
    assert Split(a[1..]) == [p] + Split(s) by {
      SplitThen(p, s);
      assert a[1..] == p + "/" + s;
    }
    assert NoDots(Split(a[1..]));
    KeptWhole(a);
  }

  lemma KeptWhole(a: string)
    requires a != "" && a[0] == '/' && NoDots(Split(a[1..]))
    ensures RemoveDots(a, "") == a
  {
    NothingToRemove(a, "");
    assert "" + a == a;
  }

  lemma EncodedNoDots(segments: seq<string>)
    requires !HasDots(segments)
    ensures NoDots(Split(Join(EncodeEach(segments))))
  {
    EncodedSplit(segments);
    forall i | 0 <= i < |segments|
      ensures !IsDot(Encode(segments[i])) && !IsDotDot(Encode(segments[i]))
    {
      assert segments[i] in segments;
      EncodedDots(segments[i]);
    }
  }

  lemma ManagerAlphabet()
    ensures forall c | c in MANAGER :: Unreserved(c)
  {
  }

  lemma ManagerIsPlain()
    ensures '/' !in MANAGER && !IsDot(MANAGER) && !IsDotDot(MANAGER)
  {
  }

  /** Resolving an address leaves it as it is: it never leaves the file manager. */
  lemma AddressIsKept(path: string)
    requires Address(path).Some?
    ensures RemoveDots(Address(path).value, "") == Address(path).value
  {
    ManagerIsPlain();
    EncodedNoDots(NonEmpty(Split(path)));
    PathIsKept(Address(path).value, MANAGER, Join(EncodeEach(NonEmpty(Split(path)))));
  }

  lemma {:induction false} JoinAlphabet(segments: seq<string>, c: char)
    requires c in Join(segments)
    ensures c == '/' || exists t | t in segments :: c in t
  {
    if |segments| == 1 {
      assert c in segments[0];
    } else if c in segments[0] {
    } else if c != '/' {
      JoinAlphabet(segments[1..], c);
    }
  }

  /** What an address may hold, character by character. */
  predicate AddressChar(c: char) {
    || 'A' <= c <= 'Z' || 'a' <= c <= 'z' || '0' <= c <= '9' || c == '/' || c == '%'
    || c == '-' || c == '_' || c == '.' || c == '!' || c == '~' || c == '*' || c == '\'' || c == '(' || c == ')'
  }

  /**
   * It holds no `?` or `#` that would end its path, nor white space, a backslash or anything outside ASCII: only
   * slashes, escapes and the characters that stand for themselves.
   */
  lemma AddressAlphabet(path: string, c: char)
    requires Address(path).Some? && c in Address(path).value
    ensures c == '/' || c == '%' || Unreserved(c)
    ensures AddressChar(c) && c != '?' && c != '#' && c != '\\' && c != ' ' && 0x21 <= c as int < 0x7F
  {
    UnreservedIsPlain(c);
    ManagerAlphabet();
    var segments := NonEmpty(Split(path));
    if c in Join(EncodeEach(segments)) && c != '/' {
      JoinAlphabet(EncodeEach(segments), c);
      var t :| t in EncodeEach(segments) && c in t;
      var i :| 0 <= i < |segments| && t == Encode(segments[i]);
      EncodedAlphabet(segments[i], c);
    }
  }
}
