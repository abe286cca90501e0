/** The client's text scanners: width, wrapping, tab expansion and UTF-8 repair. */
module Layout {

  type Octet = bv8
  type Text = seq<Octet>

  const TAB: Octet := 9
  const SPACE: Octet := 32

  // Character boundaries. The layout scanners shift the lead byte, the repair scanner masks it.

  predicate IsAscii(c: Octet) { c < 0x80 }
  predicate Leads2(c: Octet) { c >> 5 == 0x6 }
  predicate Leads3(c: Octet) { c >> 4 == 0xE }
  predicate Leads4(c: Octet) { c >> 3 == 0x1E }

  predicate Masks1(c: Octet) { c <= 0x7F }
  predicate Masks2(c: Octet) { c & 0xE0 == 0xC0 }
  predicate Masks3(c: Octet) { c & 0xF0 == 0xE0 }
  predicate Masks4(c: Octet) { c & 0xF8 == 0xF0 }

  /** Length of the character that the layout scanners see at lead byte `c`. */
  function CharLen(c: Octet): (n: nat)
    ensures 1 <= n <= 4
  {
    if IsAscii(c) then 1
    else if Leads2(c) then 2
    else if Leads3(c) then 3
    else if Leads4(c) then 4
    else 1
  }

  function CharWidth(c: Octet): (n: nat)
    ensures 1 <= n <= 2
  {
    if !IsAscii(c) && (Leads2(c) || Leads3(c) || Leads4(c)) then 2 else 1
  }

  /** Length that the repair scanner sees; 0 for a byte that cannot start a character. */
  function LeadLen(c: Octet): (n: nat)
    ensures n <= 4
  {
    if Masks1(c) then 1
    else if Masks2(c) then 2
    else if Masks3(c) then 3
    else if Masks4(c) then 4
    else 0
  }

  predicate IsContinuation(c: Octet) { c & 0xC0 == 0x80 }

  lemma ScannersAgree(c: Octet)
    ensures LeadLen(c) != 0 ==> LeadLen(c) == CharLen(c)
    ensures LeadLen(c) == 0 ==> CharLen(c) == 1 && 0x80 <= c
    ensures IsContinuation(c) ==> LeadLen(c) == 0 && c != TAB
    ensures CharLen(c) == 1 ==> CharWidth(c) == 1
    ensures 1 < CharLen(c) ==> CharWidth(c) == 2
  {
  }

  /** The byte ranges of section 3 of RFC 3629. */
  lemma ByteRanges(c: Octet)
    ensures LeadLen(c) == 1 <==> c <= 0x7F
    ensures IsContinuation(c) <==> 0x80 <= c <= 0xBF
    ensures LeadLen(c) == 2 <==> 0xC0 <= c <= 0xDF
    ensures LeadLen(c) == 3 <==> 0xE0 <= c <= 0xEF
    ensures LeadLen(c) == 4 <==> 0xF0 <= c <= 0xF7
    ensures CharWidth(c) == 2 <==> 0xC0 <= c <= 0xF7
  {
  }

  function Min(a: nat, b: nat): nat { if a < b then a else b }

  /** The characters a layout scanner visits; only the last one may be cut short by the end of the text. */
  function Chars(s: Text): (cs: seq<Text>)
    ensures forall i | 0 <= i < |cs| :: cs[i] != []
    ensures s == [] <==> cs == []
  {
    if s == [] then []
    else
      var n := Min(CharLen(s[0]), |s|);
      [s[..n]] + Chars(s[n..])
  }

  function Join(cs: seq<Text>): Text {
    if cs == [] then [] else cs[0] + Join(cs[1..])
  }

  lemma {:induction false} JoinChars(s: Text)
    ensures Join(Chars(s)) == s
    decreases |s|
  {
    if s == [] {
    } else {
      var n := Min(CharLen(s[0]), |s|);
      JoinChars(s[n..]);
      assert s == s[..n] + s[n..];
    }
  }

  lemma {:induction false} JoinAppend(a: seq<Text>, b: seq<Text>)
    ensures Join(a + b) == Join(a) + Join(b)
  {
    if a == [] {
      assert a + b == b;
    } else {
      assert (a + b)[1..] == a[1..] + b;
      JoinAppend(a[1..], b);
    }
  }

  function WidthOf(c: Text): nat {
    if c == [] then 0 else CharWidth(c[0])
  }

  function Width(cs: seq<Text>): nat {
    if cs == [] then 0 else WidthOf(cs[0]) + Width(cs[1..])
  }

  lemma {:induction false} WidthAppend(a: seq<Text>, b: seq<Text>)
    ensures Width(a + b) == Width(a) + Width(b)
  {
    if a == [] {
      assert a + b == b;
    } else {
      assert (a + b)[1..] == a[1..] + b;
      WidthAppend(a[1..], b);
    }
  }

  /** Characters that a scanner cuts the same way again: all whole, except that the last may be short. */
  predicate Stable(cs: seq<Text>) {
    forall i | 0 <= i < |cs| ::
      cs[i] != [] && |cs[i]| <= CharLen(cs[i][0]) && (i < |cs| - 1 ==> |cs[i]| == CharLen(cs[i][0]))
  }

  lemma {:induction false} CharsStable(s: Text)
    ensures Stable(Chars(s))
    decreases |s|
  {
    if s == [] {
    } else {
      var n := Min(CharLen(s[0]), |s|);
      CharsStable(s[n..]);
      assert n < CharLen(s[0]) ==> s[n..] == [];
    }
  }

  lemma {:induction false} CharsOfJoin(cs: seq<Text>)
    requires Stable(cs)
    ensures Chars(Join(cs)) == cs
  {
    if cs == [] {
    } else {
      var s := Join(cs);
      CharsOfJoin(cs[1..]);
      assert s[0] == cs[0][0];
      assert |cs| == 1 ==> Join(cs[1..]) == [];
      var n := Min(CharLen(s[0]), |s|);
      assert s[..n] == cs[0] && s[n..] == Join(cs[1..]);
    }
  }

  function RestAt(str: Text, i: nat): Text {
    if i <= |str| then str[i..] else []
  }

  lemma WidthStep(str: Text, i: nat)
    requires i < |str|
    ensures Width(Chars(RestAt(str, i))) == CharWidth(str[i]) + Width(Chars(RestAt(str, i + CharLen(str[i]))))
  {
    var rest := str[i..];
    var n := Min(CharLen(str[i]), |rest|);
    assert rest[n..] == RestAt(str, i + CharLen(str[i]));
    assert rest[..n][0] == str[i];
  }

  lemma WidthEnds(str: Text, i: nat)
    ensures RestAt(str, 0) == str
    ensures |str| <= i ==> Width(Chars(RestAt(str, i))) == 0
  {
  }

  method GetDisplayWidth(str: Text) returns (width: nat)
    ensures width == Width(Chars(str))
  {
    hide IsAscii, Leads2, Leads3, Leads4, Width, Chars, RestAt;
    width := 0;
    var i := 0;
    WidthEnds(str, 0);
    while i < |str|
      invariant width + Width(Chars(RestAt(str, i))) == Width(Chars(str))
    {
      var c := str[i];
      WidthStep(str, i);
      if IsAscii(c) {
        width := width + 1;
        i := i + 1;
      } else if Leads2(c) {
        width := width + 2;
        i := i + 2;
      } else if Leads3(c) {
        width := width + 2;
        i := i + 3;
      } else if Leads4(c) {
        width := width + 2;
        i := i + 4;
      } else {
        width := width + 1;
        i := i + 1;
      }
    }
    WidthEnds(str, i);
  }

  // Wrapping.

  type Line = seq<Text>

  /** The greedy rule of the scanner, with `cur` already on the current line. */
  function Greedy(cur: Line, cs: seq<Text>, maxWidth: int): (lines: seq<Line>)
    decreases |cs|
  {
    if cs == [] then (if cur == [] then [] else [cur])
    else if Width(cur) + WidthOf(cs[0]) > maxWidth then [cur] + Greedy([cs[0]], cs[1..], maxWidth)
    else Greedy(cur + [cs[0]], cs[1..], maxWidth)
  }

  function Concat(lines: seq<Line>): Line {
    if lines == [] then [] else lines[0] + Concat(lines[1..])
  }

  function JoinLines(lines: seq<Line>): seq<Text> {
    seq(|lines|, i requires 0 <= i < |lines| => Join(lines[i]))
  }

  lemma JoinLinesCons(line: Line, lines: seq<Line>)
    ensures JoinLines([line] + lines) == [Join(line)] + JoinLines(lines)
  {
  }

  /** The first character of `s` and what follows it. */
  function First(s: Text): Text
    requires s != []
  {
    s[..Min(CharLen(s[0]), |s|)]
  }

  function After(s: Text): Text
    requires s != []
  {
    s[Min(CharLen(s[0]), |s|)..]
  }

  function Wrapped(cur: Line, rest: Text, maxWidth: int): seq<Text> {
    JoinLines(Greedy(cur, Chars(rest), maxWidth))
  }

  lemma WrappedStep(cur: Line, rest: Text, maxWidth: int)
    requires rest != []
    ensures Wrapped(cur, rest, maxWidth) ==
      if Width(cur) + WidthOf(First(rest)) > maxWidth
      then [Join(cur)] + Wrapped([First(rest)], After(rest), maxWidth)
      else Wrapped(cur + [First(rest)], After(rest), maxWidth)
  {
  }

  lemma WrappedEnd(cur: Line, maxWidth: int)
    ensures Wrapped(cur, [], maxWidth) == if cur == [] then [] else [Join(cur)]
  {
  }

  lemma LineGrows(cur: Line, token: Text)
    ensures Join(cur + [token]) == Join(cur) + token
    ensures Width(cur + [token]) == Width(cur) + WidthOf(token)
  {
    JoinAppend(cur, [token]);
    WidthAppend(cur, [token]);
    assert [token][1..] == [];
    assert Join([token]) == token + Join([]);
  }

  method WrapContent(text: Text, maxWidth: int) returns (lines: seq<Text>)
    ensures lines == Wrapped([], text, maxWidth)
  {
    hide Wrapped, Join, Width, IsAscii, Leads2, Leads3, Leads4;
    lines := [];
    var currentLine: Text := [];
    var currentWidth := 0;
    ghost var cur: Line := [];
    ghost var rest := text;
    var i := 0;
    assert Join([]) == [] && Width([]) == 0 by {
      EmptyLine();
    }
    while i < |text|
      invariant currentLine == Join(cur) && currentWidth == Width(cur)
      invariant cur == [] <==> currentLine == []
      invariant rest == if i <= |text| then text[i..] else []
      invariant lines + Wrapped(cur, rest, maxWidth) == Wrapped([], text, maxWidth)
    {
      var c := text[i];
      var charLen := 1;
      var charWidth := 1;
      if IsAscii(c) {
        charLen := 1;
        charWidth := 1;
      } else if Leads2(c) {
        charLen := 2;
        charWidth := 2;
      } else if Leads3(c) {
        charLen := 3;
        charWidth := 2;
      } else if Leads4(c) {
        charLen := 4;
        charWidth := 2;
      }
      ghost var token := First(rest);
      assert charLen == CharLen(c) && charWidth == WidthOf(token);
      WrappedStep(cur, rest, maxWidth);
      if currentWidth + charWidth > maxWidth {
        lines := lines + [currentLine];
        currentLine := [];
        currentWidth := 0;
        cur := [];
      }
      EmptyLine();
      LineGrows(cur, token);
      assert [] + [token] == [token];
      // `substr` stops at the end of the text
      var piece := text[i..if i + charLen <= |text| then i + charLen else |text|];
      assert piece == token;
      currentLine := currentLine + piece;
      currentWidth := currentWidth + charWidth;
      cur := cur + [token];
      rest := After(rest);
      i := i + charLen;
    }
    WrappedEnd(cur, maxWidth);
    if currentLine != [] {
      lines := lines + [currentLine];
    }
  }

  lemma EmptyLine()
    ensures Join([]) == [] && Width([]) == 0
  {
  }

  // What the greedy lines satisfy.

  predicate CharsFit(cs: seq<Text>, maxWidth: int) {
    forall i | 0 <= i < |cs| :: WidthOf(cs[i]) <= maxWidth
  }

  predicate LinesFit(lines: seq<Line>, maxWidth: int) {
    forall i | 0 <= i < |lines| :: Width(lines[i]) <= maxWidth
  }

  predicate NoneEmpty(lines: seq<Line>) {
    forall i | 0 <= i < |lines| :: lines[i] != []
  }

  lemma {:induction false} GreedyKeepsText(cur: Line, cs: seq<Text>, maxWidth: int)
    ensures Concat(Greedy(cur, cs, maxWidth)) == cur + cs
    decreases |cs|
  {
    hide Width, WidthOf;
    if cs == [] {
      assert cur != [] ==> Concat([cur]) == cur + Concat([]);
    } else if Width(cur) + WidthOf(cs[0]) > maxWidth {
      GreedyKeepsText([cs[0]], cs[1..], maxWidth);
      var rest := Greedy([cs[0]], cs[1..], maxWidth);
      assert ([cur] + rest)[1..] == rest;
    } else {
      GreedyKeepsText(cur + [cs[0]], cs[1..], maxWidth);
      assert (cur + [cs[0]]) + cs[1..] == cur + cs;
    }
  }

  lemma {:induction false} GreedyFits(cur: Line, cs: seq<Text>, maxWidth: int)
    requires CharsFit(cs, maxWidth) && Width(cur) <= maxWidth
    ensures var lines := Greedy(cur, cs, maxWidth); LinesFit(lines, maxWidth) && NoneEmpty(lines)
    decreases |cs|
  {
    if cs == [] {
    } else {
      assert WidthOf(cs[0]) <= maxWidth;
      assert cs[1..] != [] ==> CharsFit(cs[1..], maxWidth);
      if Width(cur) + WidthOf(cs[0]) > maxWidth {
        assert Width([cs[0]]) == WidthOf(cs[0]) + Width([]);
        GreedyFits([cs[0]], cs[1..], maxWidth);
        assert cur != [];
      } else {
        LineGrows(cur, cs[0]);
        GreedyFits(cur + [cs[0]], cs[1..], maxWidth);
      }
    }
  }

  lemma {:induction false} CharWithinLine(line: Line, i: nat)
    requires i < |line|
    ensures WidthOf(line[i]) <= Width(line)
  {
    if i == 0 {
    } else {
      CharWithinLine(line[1..], i - 1);
    }
  }

  lemma {:induction false} FittingLinesHaveFittingChars(lines: seq<Line>, maxWidth: int)
    requires LinesFit(lines, maxWidth)
    ensures CharsFit(Concat(lines), maxWidth)
  {
    if lines == [] {
    } else {
      FittingLinesHaveFittingChars(lines[1..], maxWidth);
      forall i | 0 <= i < |lines[0]| ensures WidthOf(lines[0][i]) <= maxWidth {
        CharWithinLine(lines[0], i);
      }
    }
  }

  /** Lines stay within the width exactly when every single character does, and then none is empty. */
  lemma GreedyFitsIff(cs: seq<Text>, maxWidth: int)
    requires cs != []
    ensures LinesFit(Greedy([], cs, maxWidth), maxWidth) <==> CharsFit(cs, maxWidth)
    ensures CharsFit(cs, maxWidth) ==> NoneEmpty(Greedy([], cs, maxWidth))
  {
    if CharsFit(cs, maxWidth) {
      assert 0 <= WidthOf(cs[0]) <= maxWidth;
      GreedyFits([], cs, maxWidth);
    }
    GreedyKeepsText([], cs, maxWidth);
    assert [] + cs == cs;
    if LinesFit(Greedy([], cs, maxWidth), maxWidth) {
      FittingLinesHaveFittingChars(Greedy([], cs, maxWidth), maxWidth);
    }
  }

  /** The next line's first character no longer fits. */
  predicate FullBefore(lines: seq<Line>, i: nat, maxWidth: int)
    requires i + 1 < |lines|
  {
    lines[i + 1] != [] && maxWidth < Width(lines[i]) + WidthOf(lines[i + 1][0])
  }

  /** A line starts with what was put on it first. */
  lemma {:induction false} GreedyStartsWith(cur: Line, cs: seq<Text>, maxWidth: int)
    requires cur != []
    ensures var lines := Greedy(cur, cs, maxWidth); lines != [] && lines[0] != [] && lines[0][0] == cur[0]
    decreases |cs|
  {
    hide Width, WidthOf;
    if cs != [] {
      GreedyStartsWith(cur + [cs[0]], cs[1..], maxWidth);
    }
  }

  lemma FullFirst(cur: Line, rest: seq<Line>, next: Text, maxWidth: int)
    requires rest != [] && rest[0] != [] && rest[0][0] == next && maxWidth < Width(cur) + WidthOf(next)
    requires AllFull(rest, maxWidth)
    ensures AllFull([cur] + rest, maxWidth)
  {
    hide Width, WidthOf;
    var lines := [cur] + rest;
    forall i: nat | i + 1 < |lines|
      ensures FullBefore(lines, i, maxWidth)
    {
      if i != 0 {
        assert FullBefore(rest, i - 1, maxWidth);
      }
    }
  }

  predicate AllFull(lines: seq<Line>, maxWidth: int) {
    forall i: nat | i + 1 < |lines| :: FullBefore(lines, i, maxWidth)
  }

  /** No line ends while the next character still fits, whatever the width. */
  lemma {:induction false} LinesAreFull(cur: Line, cs: seq<Text>, maxWidth: int)
    ensures AllFull(Greedy(cur, cs, maxWidth), maxWidth)
    decreases |cs|
  {
    hide Width, WidthOf;
    if cs == [] {
    } else if Width(cur) + WidthOf(cs[0]) > maxWidth {
      LinesAreFull([cs[0]], cs[1..], maxWidth);
      GreedyStartsWith([cs[0]], cs[1..], maxWidth);
      FullFirst(cur, Greedy([cs[0]], cs[1..], maxWidth), cs[0], maxWidth);
    } else {
      LinesAreFull(cur + [cs[0]], cs[1..], maxWidth);
    }
  }

  // Optimality.

  /** How many of `cs` join the current line before it is pushed. */
  function Taken(cur: Line, cs: seq<Text>, maxWidth: int): (k: nat)
    ensures k <= |cs|
    decreases |cs|
  {
    if cs == [] || Width(cur) + WidthOf(cs[0]) > maxWidth then 0
    else 1 + Taken(cur + [cs[0]], cs[1..], maxWidth)
  }

  lemma {:induction false} TakenIsMaximal(cur: Line, cs: seq<Text>, maxWidth: int, k: nat)
    requires k <= |cs| && Width(cur + cs[..k]) <= maxWidth
    ensures k <= Taken(cur, cs, maxWidth)
    decreases |cs|
  {
    if k == 0 {
    } else {
      assert cur + cs[..k] == (cur + [cs[0]]) + cs[1..][..k - 1];
      WidthAppend(cur + [cs[0]], cs[1..][..k - 1]);
      LineGrows(cur, cs[0]);
      TakenIsMaximal(cur + [cs[0]], cs[1..], maxWidth, k - 1);
    }
  }

  lemma {:induction false} GreedyFirstLine(cur: Line, cs: seq<Text>, maxWidth: int)
    requires CharsFit(cs, maxWidth) && cur != []
    ensures var k := Taken(cur, cs, maxWidth);
      |Greedy(cur, cs, maxWidth)| == 1 + |Greedy([], cs[k..], maxWidth)|
    decreases |cs|
  {
    if cs == [] {
    } else {
      if Width(cur) + WidthOf(cs[0]) > maxWidth {
        assert [] + [cs[0]] == [cs[0]];
        assert WidthOf(cs[0]) <= maxWidth;
      } else {
        GreedyFirstLine(cur + [cs[0]], cs[1..], maxWidth);
        var k := Taken(cur + [cs[0]], cs[1..], maxWidth);
        assert cs[1..][k..] == cs[k + 1..];
      }
    }
  }

  /** The first greedy line takes at least as much of `cs` as `line` does. */
  lemma FirstLineCovers(lead: Line, cs: seq<Text>, m: nat, maxWidth: int) returns (k: nat)
    requires 0 < m <= |cs| && Width(lead + cs[..m]) <= maxWidth && CharsFit(cs, maxWidth)
    ensures m <= k <= |cs| && |Greedy([], cs, maxWidth)| == 1 + |Greedy([], cs[k..], maxWidth)|
  {
    WidthAppend(lead, cs[..m]);
    var head, tail := [cs[0]], cs[1..];
    assert cs[..m] == head + tail[..m - 1];
    TakenIsMaximal(head, tail, maxWidth, m - 1);
    k := 1 + Taken(head, tail, maxWidth);
    GreedyFirstLine(head, tail, maxWidth);
    assert [] + [cs[0]] == head && tail[k - 1..] == cs[k..];
    assert WidthOf(cs[0]) <= maxWidth;
  }

  lemma {:induction false} StaysAhead(lead: Line, cs: seq<Text>, split: seq<Line>, maxWidth: int)
    requires Concat(split) == lead + cs && LinesFit(split, maxWidth) && CharsFit(cs, maxWidth)
    ensures |Greedy([], cs, maxWidth)| <= |split|
    decreases |split|
  {
    hide Width, WidthOf;
    if cs == [] {
    } else {
      hide Greedy;
      var j := |split[0]|;
      assert Concat(split)[..j] == split[0] && Concat(split)[j..] == Concat(split[1..]);
      if j <= |lead| {
        assert (lead + cs)[j..] == lead[j..] + cs;
        StaysAhead(lead[j..], cs, split[1..], maxWidth);
      } else {
        var m := j - |lead|;
        assert split[0] == lead + cs[..m];
        var k := FirstLineCovers(lead, cs, m, maxWidth);
        assert (lead + cs)[j..] == cs[m..k] + cs[k..];
        StaysAhead(cs[m..k], cs[k..], split[1..], maxWidth);
      }
    }
  }

  // The lines of `wrapContent`, as text.

  lemma {:induction false} JoinOfConcat(lines: seq<Line>)
    ensures Join(Concat(lines)) == Join(JoinLines(lines))
  {
    if lines == [] {
    } else {
      JoinOfConcat(lines[1..]);
      JoinAppend(lines[0], Concat(lines[1..]));
      assert [lines[0]] + lines[1..] == lines;
      JoinLinesCons(lines[0], lines[1..]);
    }
  }

  /** A stretch of scanned characters is scanned the same way on its own. */
  lemma StableSlice(lines: seq<Line>, i: nat)
    requires i < |lines| && Stable(Concat(lines))
    ensures Stable(lines[i])
    decreases i
  {
    var all := Concat(lines);
    assert all == lines[0] + Concat(lines[1..]);
    if i == 0 {
      forall k | 0 <= k < |lines[0]|
        ensures lines[0][k] == all[k]
      {
      }
    } else {
      var rest := Concat(lines[1..]);
      forall k | 0 <= k < |rest|
        ensures rest[k] == all[|lines[0]| + k]
      {
      }
      StableSlice(lines[1..], i - 1);
    }
  }

  /** A way to break `text` between characters into lines no wider than `maxWidth`. */
  predicate IsSplit(text: Text, split: seq<Line>, maxWidth: int) {
    Concat(split) == Chars(text) && LinesFit(split, maxWidth)
  }

  /** `wrapContent` keeps the text; its lines are within the width and non-empty exactly when every
      character fits the width; and then no other split needs fewer lines. */
  lemma WrapContentCorrect(text: Text, maxWidth: int)
    requires text != []
    ensures var lines := Wrapped([], text, maxWidth);
      && Join(lines) == text
      && ((forall i | 0 <= i < |lines| :: Width(Chars(lines[i])) <= maxWidth) <==> CharsFit(Chars(text), maxWidth))
      && (CharsFit(Chars(text), maxWidth) ==> forall i | 0 <= i < |lines| :: lines[i] != [])
      && (CharsFit(Chars(text), maxWidth) ==>
            forall split :: IsSplit(text, split, maxWidth) ==> |lines| <= |split|)
  {
    var cs := Chars(text);
    var greedy := Greedy([], cs, maxWidth);
    var lines := Wrapped([], text, maxWidth);
    GreedyKeepsText([], cs, maxWidth);
    assert [] + cs == cs;
    JoinOfConcat(greedy);
    JoinChars(text);
    GreedyFitsIff(cs, maxWidth);
    CharsStable(text);
    forall i | 0 <= i < |greedy|
      ensures Chars(lines[i]) == greedy[i]
    {
      StableSlice(greedy, i);
      CharsOfJoin(greedy[i]);
    }
    if CharsFit(cs, maxWidth) {
      forall split | IsSplit(text, split, maxWidth)
        ensures |lines| <= |split|
      {
        StaysAhead([], cs, split, maxWidth);
      }
    }
  }

  /** From width 2 on, every text fits. */
  lemma WidthTwoSuffices(text: Text, maxWidth: int)
    requires 2 <= maxWidth
    ensures CharsFit(Chars(text), maxWidth)
  {
  }

  // UTF-8 repair.

  /** One character by the lead and continuation bit patterns of section 3 of RFC 3629. */
  predicate IsUnit(c: Text) {
    c != [] && LeadLen(c[0]) == |c| && forall j | 1 <= j < |c| :: IsContinuation(c[j])
  }

  predicate AllUnits(cs: seq<Text>) {
    forall i | 0 <= i < |cs| :: IsUnit(cs[i])
  }

  predicate WellFormed(s: Text) {
    s != [] ==>
      var len := LeadLen(s[0]);
      0 < len <= |s| && IsUnit(s[..len]) && WellFormed(s[len..])
  }

  function Repaired(s: Text): Text {
    if s == [] then []
    else
      var len := LeadLen(s[0]);
      if len == 0 then Repaired(s[1..])
      else if |s| < len then []
      else (if IsUnit(s[..len]) then s[..len] else []) + Repaired(s[len..])
  }

  method FixInvalidUtf8(input: Text) returns (result: Text)
    ensures result == Repaired(input)
  {
    hide Repaired, Masks1, Masks2, Masks3, Masks4, IsContinuation;
    result := [];
    var i := 0;
    while i < |input|
      invariant i <= |input|
      invariant result + Repaired(input[i..]) == Repaired(input)
    {
      var c := input[i];
      var len := 0;
      RepairStep(input, i);
      if Masks1(c) {
        len := 1;
      } else if Masks2(c) {
        len := 2;
      } else if Masks3(c) {
        len := 3;
      } else if Masks4(c) {
        len := 4;
      } else {
        i := i + 1;
        continue;
      }
      if i + len > |input| {
        break;
      }
      var valid := true;
      for j := 1 to len
        invariant valid
        invariant forall k | i + 1 <= k < i + j :: IsContinuation(input[k])
      {
        if !IsContinuation(input[i + j]) {
          valid := false;
          break;
        }
      }
      if valid {
        result := result + input[i..i + len];
      }
      i := i + len;
    }
    assert input[|input|..] == [];
    RepairedNothing();
  }

  lemma RepairedNothing()
    ensures Repaired([]) == []
  {
  }

  lemma RepairStep(input: Text, i: nat)
    requires i < |input|
    ensures var len := LeadLen(input[i]);
      Repaired(input[i..]) ==
      if len == 0 then Repaired(input[i + 1..])
      else if |input| < i + len then []
      else if forall k | i + 1 <= k < i + len :: IsContinuation(input[k])
      then input[i..i + len] + Repaired(input[i + len..])
      else Repaired(input[i + len..])
  {
    var rest, len := input[i..], LeadLen(input[i]);
    assert rest[1..] == input[i + 1..];
    if 0 < len && i + len <= |input| {
      var unit := rest[..len];
      assert unit == input[i..i + len] && rest[len..] == input[i + len..];
      assert forall k | i + 1 <= k < i + len :: input[k] == unit[k - i];
      assert forall j | 1 <= j < len :: unit[j] == input[i + j];
      assert IsUnit(unit) <==> forall k | i + 1 <= k < i + len :: IsContinuation(input[k]);
      assert [] + Repaired(rest[len..]) == Repaired(rest[len..]);
    }
  }

  lemma {:induction false} UnitThenWellFormed(c: Text, s: Text)
    requires IsUnit(c) && WellFormed(s)
    ensures WellFormed(c + s)
  {
  }

  lemma {:induction false} RepairedWellFormed(s: Text)
    ensures WellFormed(Repaired(s))
    decreases |s|
  {
    if s == [] {
    } else {
      var len := LeadLen(s[0]);
      if len == 0 {
        RepairedWellFormed(s[1..]);
      } else if len <= |s| {
        RepairedWellFormed(s[len..]);
        if IsUnit(s[..len]) {
          UnitThenWellFormed(s[..len], Repaired(s[len..]));
        } else {
          assert [] + Repaired(s[len..]) == Repaired(s[len..]);
        }
      }
    }
  }

  lemma RepairKeepsUnit(c: Text, s: Text)
    requires IsUnit(c)
    ensures Repaired(c + s) == c + Repaired(s)
  {
  }

  /** Whatever follows it, well-formed text is kept whole. */
  lemma {:induction false} RepairKeepsPrefix(a: Text, b: Text)
    requires WellFormed(a)
    ensures Repaired(a + b) == a + Repaired(b)
    decreases |a|
  {
    hide LeadLen, IsUnit, Repaired;
    if a == [] {
      assert a + b == b;
    } else {
      var c, rest := a[..LeadLen(a[0])], a[LeadLen(a[0])..];
      RepairKeepsUnit(c, rest + b);
      RepairKeepsPrefix(rest, b);
      assert a == c + rest && a + b == c + (rest + b);
    }
  }

  lemma DropsNoLead(c: Octet, b: Text)
    requires LeadLen(c) == 0
    ensures Repaired([c] + b) == Repaired(b)
  {
    assert ([c] + b)[1..] == b;
  }

  lemma DropsBroken(bad: Text, b: Text)
    requires bad != [] && LeadLen(bad[0]) == |bad| && !IsUnit(bad)
    ensures Repaired(bad + b) == Repaired(b)
  {
    hide LeadLen, IsUnit;
    var s := bad + b;
    assert s[0] == bad[0] && s[..|bad|] == bad && s[|bad|..] == b;
    assert [] + Repaired(b) == Repaired(b);
  }

  lemma DropsShort(bad: Text)
    requires bad != [] && |bad| < LeadLen(bad[0])
    ensures Repaired(bad) == []
  {
  }

  /** What else follows well-formed text is dropped: a byte that starts no character, alone; a character with a
      wrong continuation byte, as a whole; and at the end a character cut short. */
  lemma RepairDrops(a: Text, bad: Text, b: Text)
    requires WellFormed(a) && bad != []
    ensures LeadLen(bad[0]) == 0 && |bad| == 1 ==> Repaired(a + (bad + b)) == a + Repaired(b)
    ensures LeadLen(bad[0]) == |bad| && !IsUnit(bad) ==> Repaired(a + (bad + b)) == a + Repaired(b)
    ensures |bad| < LeadLen(bad[0]) ==> Repaired(a + bad) == a
  {
    hide LeadLen, IsUnit, Repaired, WellFormed;
    RepairKeepsPrefix(a, bad + b);
    RepairKeepsPrefix(a, bad);
    if LeadLen(bad[0]) == 0 && |bad| == 1 {
      assert bad == [bad[0]];
      DropsNoLead(bad[0], b);
    }
    if LeadLen(bad[0]) == |bad| && !IsUnit(bad) {
      DropsBroken(bad, b);
    }
    if |bad| < LeadLen(bad[0]) {
      DropsShort(bad);
    }
  }

  /** Repair yields well-formed text, changes nothing exactly when nothing was wrong, and is idempotent. */
  lemma RepairCorrect(s: Text)
    ensures WellFormed(Repaired(s))
    ensures Repaired(s) == s <==> WellFormed(s)
    ensures Repaired(Repaired(s)) == Repaired(s)
  {
    RepairedWellFormed(s);
    RepairKeepsPrefix(Repaired(s), []);
    assert Repaired(s) + [] == Repaired(s) && s + [] == s;
    if WellFormed(s) {
      RepairKeepsPrefix(s, []);
    }
  }

  /** The layout scanners and the repair scanner agree: text is well formed exactly when each character
      the layout scanners visit is. */
  lemma {:induction false} WellFormedIffUnits(s: Text)
    ensures WellFormed(s) <==> AllUnits(Chars(s))
    decreases |s|
  {
    if s == [] {
    } else {
      ScannersAgree(s[0]);
      var cs := Chars(s);
      assert cs[0] == First(s) && cs[1..] == Chars(After(s));
      WellFormedIffUnits(After(s));
      assert AllUnits(cs) <==> IsUnit(cs[0]) && AllUnits(cs[1..]) by {
        assert forall i | 0 < i < |cs| :: cs[i] == cs[1..][i - 1];
      }
    }
  }

  lemma {:induction false} JoinUnits(cs: seq<Text>)
    requires AllUnits(cs)
    ensures WellFormed(Join(cs))
  {
    if cs == [] {
    } else {
      assert AllUnits(cs[1..]);
      JoinUnits(cs[1..]);
      UnitThenWellFormed(cs[0], Join(cs[1..]));
    }
  }

  lemma UnitsOfSlice(lines: seq<Line>, i: nat)
    requires i < |lines| && AllUnits(Concat(lines))
    ensures AllUnits(lines[i])
    decreases i
  {
    var all, rest := Concat(lines), Concat(lines[1..]);
    assert forall k | 0 <= k < |lines[0]| :: lines[0][k] == all[k];
    assert forall k | 0 <= k < |rest| :: rest[k] == all[|lines[0]| + k];
    if i != 0 {
      UnitsOfSlice(lines[1..], i - 1);
    }
  }

  /** Wrapping never splits a character: lines of well-formed text are well formed. */
  lemma WrapKeepsCharacters(text: Text, maxWidth: int)
    requires WellFormed(text)
    ensures var lines := Wrapped([], text, maxWidth);
      forall i | 0 <= i < |lines| :: WellFormed(lines[i])
  {
    var greedy := Greedy([], Chars(text), maxWidth);
    GreedyKeepsText([], Chars(text), maxWidth);
    assert [] + Chars(text) == Chars(text);
    WellFormedIffUnits(text);
    forall i | 0 <= i < |greedy|
      ensures WellFormed(Join(greedy[i]))
    {
      UnitsOfSlice(greedy, i);
      JoinUnits(greedy[i]);
    }
  }

  // Tab expansion.

  function SpacesAt(col: nat, tabSize: nat): (n: nat)
    requires 0 < tabSize
    ensures 0 < n <= tabSize
  {
    tabSize - col % tabSize
  }

  function Spaces(n: nat): Text {
    seq(n, _ => SPACE)
  }

  function Blanks(n: nat): seq<Text> {
    seq(n, _ => [SPACE])
  }

  function IsTab(c: Text): bool {
    c != [] && c[0] == TAB
  }

  function Advance(col: nat, c: Text, tabSize: nat): nat
    requires 0 < tabSize
  {
    if IsTab(c) then col + SpacesAt(col, tabSize) else col + WidthOf(c)
  }

  function Expanded(col: nat, cs: seq<Text>, tabSize: nat): seq<Text>
    requires 0 < tabSize
    decreases |cs|
  {
    if cs == [] then []
    else
      (if IsTab(cs[0]) then Blanks(SpacesAt(col, tabSize)) else [cs[0]])
      + Expanded(Advance(col, cs[0], tabSize), cs[1..], tabSize)
  }

  function FinalColumn(col: nat, cs: seq<Text>, tabSize: nat): nat
    requires 0 < tabSize
    decreases |cs|
  {
    if cs == [] then col else FinalColumn(Advance(col, cs[0], tabSize), cs[1..], tabSize)
  }

  function ExpandedText(col: nat, rest: Text, tabSize: nat): Text
    requires 0 < tabSize
  {
    Join(Expanded(col, Chars(rest), tabSize))
  }

  lemma {:induction false} JoinBlanks(n: nat)
    ensures Join(Blanks(n)) == Spaces(n)
    ensures Width(Blanks(n)) == n
  {
    if n == 0 {
    } else {
      JoinBlanks(n - 1);
      assert Blanks(n)[1..] == Blanks(n - 1);
    }
  }

  lemma ExpandStep(col: nat, rest: Text, tabSize: nat)
    requires rest != [] && 0 < tabSize
    ensures ExpandedText(col, rest, tabSize) ==
      (if rest[0] == TAB then Spaces(SpacesAt(col, tabSize)) else First(rest))
      + ExpandedText(Advance(col, First(rest), tabSize), After(rest), tabSize)
    ensures FinalColumn(col, Chars(rest), tabSize)
      == FinalColumn(Advance(col, First(rest), tabSize), Chars(After(rest)), tabSize)
  {
    var cs := Chars(rest);
    assert cs == [First(rest)] + Chars(After(rest));
    var head := if IsTab(cs[0]) then Blanks(SpacesAt(col, tabSize)) else [cs[0]];
    JoinAppend(head, Expanded(Advance(col, cs[0], tabSize), cs[1..], tabSize));
    JoinBlanks(SpacesAt(col, tabSize));
    assert Join([First(rest)]) == First(rest) + Join([]);
  }

  /** `result` and `col` after the scanner has read up to `rest`. */
  ghost predicate ExpandedSoFar(str: Text, result: Text, col: nat, rest: Text, tabSize: nat)
    requires 0 < tabSize
  {
    && result + ExpandedText(col, rest, tabSize) == ExpandedText(0, str, tabSize)
    && FinalColumn(col, Chars(rest), tabSize) == FinalColumn(0, Chars(str), tabSize)
  }

  lemma ExpandedFurther(str: Text, result: Text, col: nat, i: nat, tabSize: nat)
    requires i < |str| && 0 < tabSize && ExpandedSoFar(str, result, col, str[i..], tabSize)
    ensures
      var spaces, n := SpacesAt(col, tabSize), CharLen(str[i]);
      if str[i] == TAB then ExpandedSoFar(str, result + Spaces(spaces), col + spaces, RestAt(str, i + 1), tabSize)
      else
        ExpandedSoFar(str, result + (if n == 1 then [str[i]] else Substr(str, i, n)), col + CharWidth(str[i]),
                      RestAt(str, i + n), tabSize)
  {
    hide Spaces, SpacesAt, Chars, FinalColumn, ExpandedText;
    var rest := str[i..];
    ExpandStep(col, rest, tabSize);
    var piece := if str[i] == TAB then Spaces(SpacesAt(col, tabSize)) else First(rest);
    var todo := ExpandedText(Advance(col, First(rest), tabSize), After(rest), tabSize);
    assert result + (piece + todo) == (result + piece) + todo;
    assert First(rest) == Substr(str, i, CharLen(str[i])) && After(rest) == RestAt(str, i + CharLen(str[i]));
  }

  lemma ExpandedEnds(str: Text, result: Text, col: nat, tabSize: nat)
    requires 0 < tabSize
    ensures ExpandedSoFar(str, [], 0, RestAt(str, 0), tabSize)
    ensures forall i | |str| <= i :: RestAt(str, i) == []
    ensures ExpandedSoFar(str, result, col, [], tabSize) ==>
      result == ExpandedText(0, str, tabSize) && col == FinalColumn(0, Chars(str), tabSize)
  {
  }

  method ExpandTabs(str: Text, tabSize: nat) returns (result: Text, col: nat)
    requires 0 < tabSize
    ensures result == ExpandedText(0, str, tabSize)
    ensures col == FinalColumn(0, Chars(str), tabSize)
  {
    result := [];
    col := 0;
    var i := 0;
    hide ExpandedSoFar, ExpandedText, FinalColumn, Chars, Substr, RestAt, Spaces, SpacesAt;
    hide IsAscii, Leads2, Leads3, Leads4;
    ExpandedEnds(str, [], 0, tabSize);
    while i < |str|
      invariant ExpandedSoFar(str, result, col, RestAt(str, i), tabSize)
    {
      var c := str[i];
      ExpandedFurther(str, result, col, i, tabSize);
      if c == TAB {
        var spaces := SpacesAt(col, tabSize);
        result := result + Spaces(spaces);
        col := col + spaces;
        i := i + 1;
      } else if IsAscii(c) {
        result := result + [c];
        col := col + 1;
        i := i + 1;
      } else if Leads2(c) {
        result := result + Substr(str, i, 2);
        col := col + 2;
        i := i + 2;
      } else if Leads3(c) {
        result := result + Substr(str, i, 3);
        col := col + 2;
        i := i + 3;
      } else if Leads4(c) {
        result := result + Substr(str, i, 4);
        col := col + 2;
        i := i + 4;
      } else {
        result := result + [c];
        col := col + 1;
        i := i + 1;
      }
    }
    ExpandedEnds(str, result, col, tabSize);
  }

  /** `substr`, which stops at the end of the text. */
  function Substr(s: Text, i: nat, n: nat): Text
    requires i <= |s|
  {
    s[i..Min(i + n, |s|)]
  }

  lemma {:induction false} ExpandedStable(col: nat, cs: seq<Text>, tabSize: nat)
    requires 0 < tabSize && Stable(cs)
    ensures Stable(Expanded(col, cs, tabSize))
    decreases |cs|
  {
    if cs == [] {
    } else {
      assert Stable(cs[1..]);
      ExpandedStable(Advance(col, cs[0], tabSize), cs[1..], tabSize);
    }
  }

  lemma {:induction false} ExpandedWidth(col: nat, cs: seq<Text>, tabSize: nat)
    requires 0 < tabSize
    ensures col + Width(Expanded(col, cs, tabSize)) == FinalColumn(col, cs, tabSize)
    decreases |cs|
  {
    if cs == [] {
    } else {
      var next := Advance(col, cs[0], tabSize);
      ExpandedWidth(next, cs[1..], tabSize);
      var head := if IsTab(cs[0]) then Blanks(SpacesAt(col, tabSize)) else [cs[0]];
      WidthAppend(head, Expanded(next, cs[1..], tabSize));
      JoinBlanks(SpacesAt(col, tabSize));
      assert Width([cs[0]]) == WidthOf(cs[0]) + Width([]);
    }
  }

  /** A tab that some longer character swallowed: it is not at a position where the scanner looks. */
  predicate HiddenTab(cs: seq<Text>) {
    exists i :: 0 <= i < |cs| && !IsTab(cs[i]) && TAB in cs[i]
  }

  lemma {:induction false} TabsLeft(col: nat, cs: seq<Text>, tabSize: nat)
    requires 0 < tabSize
    ensures TAB in Join(Expanded(col, cs, tabSize)) <==> HiddenTab(cs)
    decreases |cs|
  {
    if cs == [] {
    } else {
      var next := Advance(col, cs[0], tabSize);
      TabsLeft(next, cs[1..], tabSize);
      var head := if IsTab(cs[0]) then Blanks(SpacesAt(col, tabSize)) else [cs[0]];
      JoinAppend(head, Expanded(next, cs[1..], tabSize));
      JoinBlanks(SpacesAt(col, tabSize));
      assert Join([cs[0]]) == cs[0] + Join([]);
      assert HiddenTab(cs) <==> (!IsTab(cs[0]) && TAB in cs[0]) || HiddenTab(cs[1..]) by {
        assert forall i | 0 < i < |cs| :: cs[i] == cs[1..][i - 1];
        if HiddenTab(cs[1..]) {
          var i :| 0 <= i < |cs[1..]| && !IsTab(cs[1..][i]) && TAB in cs[1..][i];
          assert cs[i + 1] == cs[1..][i];
        }
      }
    }
  }

  /** The column the expansion ends in is the display width of its result, for every text; and a tab
      survives exactly when a multi-byte character of the input contains one. */
  lemma ExpandTabsCorrect(str: Text, tabSize: nat)
    requires 0 < tabSize
    ensures var result := ExpandedText(0, str, tabSize);
      && Width(Chars(result)) == FinalColumn(0, Chars(str), tabSize)
      && (TAB in result <==> HiddenTab(Chars(str)))
  {
    CharsStable(str);
    ExpandedStable(0, Chars(str), tabSize);
    CharsOfJoin(Expanded(0, Chars(str), tabSize));
    ExpandedWidth(0, Chars(str), tabSize);
    TabsLeft(0, Chars(str), tabSize);
  }

  lemma {:induction false} ExpandedUnits(col: nat, cs: seq<Text>, tabSize: nat)
    requires 0 < tabSize && AllUnits(cs)
    ensures AllUnits(Expanded(col, cs, tabSize))
    decreases |cs|
  {
    if cs == [] {
    } else {
      assert AllUnits(cs[1..]);
      ExpandedUnits(Advance(col, cs[0], tabSize), cs[1..], tabSize);
    }
  }

  lemma UnitsHideNoTab(cs: seq<Text>)
    requires AllUnits(cs)
    ensures !HiddenTab(cs)
  {
  }

  /** On repaired text the expansion leaves no tab and stays well formed. */
  lemma ExpandWellFormed(str: Text, tabSize: nat)
    requires 0 < tabSize && WellFormed(str)
    ensures var result := ExpandedText(0, str, tabSize);
      TAB !in result && WellFormed(result)
  {
    var cs := Chars(str);
    WellFormedIffUnits(str);
    ExpandedUnits(0, cs, tabSize);
    JoinUnits(Expanded(0, cs, tabSize));
    TabsLeft(0, cs, tabSize);
    UnitsHideNoTab(cs);
  }

  lemma {:induction false} FinalColumnAppend(col: nat, cs: seq<Text>, c: Text, tabSize: nat)
    requires 0 < tabSize
    ensures FinalColumn(col, cs + [c], tabSize) == Advance(FinalColumn(col, cs, tabSize), c, tabSize)
    decreases |cs|
  {
    if cs == [] {
      assert ([] + [c])[1..] == [] && ([] + [c])[0] == c;
    } else {
      assert (cs + [c])[1..] == cs[1..] + [c];
      FinalColumnAppend(Advance(col, cs[0], tabSize), cs[1..], c, tabSize);
    }
  }

  /** Every tab carries the column to the next multiple of the tab size. */
  lemma TabStops(cs: seq<Text>, i: nat, tabSize: nat)
    requires 0 < tabSize && i < |cs| && IsTab(cs[i])
    ensures var before, after := FinalColumn(0, cs[..i], tabSize), FinalColumn(0, cs[..i + 1], tabSize);
      before < after <= before + tabSize && after == (before / tabSize + 1) * tabSize
  {
    assert cs[..i + 1] == cs[..i] + [cs[i]];
    FinalColumnAppend(0, cs[..i], cs[i], tabSize);
    NextStop(FinalColumn(0, cs[..i], tabSize), tabSize);
  }

  lemma {:induction false} ExpandedSplit(col: nat, a: seq<Text>, b: seq<Text>, tabSize: nat)
    requires 0 < tabSize
    ensures Expanded(col, a + b, tabSize)
      == Expanded(col, a, tabSize) + Expanded(FinalColumn(col, a, tabSize), b, tabSize)
    decreases |a|
  {
    if a == [] {
      assert a + b == b;
      assert [] + Expanded(col, b, tabSize) == Expanded(col, b, tabSize);
    } else {
      assert (a + b)[1..] == a[1..] + b;
      ExpandedSplit(Advance(col, a[0], tabSize), a[1..], b, tabSize);
    }
  }

  /** In the expansion each character stands for itself, and a tab for the blanks up to its tab stop, between
      the expansions of what is before it and after it. */
  lemma PiecesInPlace(a: seq<Text>, c: Text, b: seq<Text>, tabSize: nat)
    requires 0 < tabSize
    ensures var col, next := FinalColumn(0, a, tabSize), FinalColumn(0, a + [c], tabSize);
      && col <= next
      && Expanded(0, a + [c] + b, tabSize)
         == Expanded(0, a, tabSize) + (if IsTab(c) then Blanks(next - col) else [c]) + Expanded(next, b, tabSize)
  {
    var col := FinalColumn(0, a, tabSize);
    ExpandedSplit(0, a + [c], b, tabSize);
    ExpandedSplit(0, a, [c], tabSize);
    FinalColumnAppend(0, a, c, tabSize);
    var piece := if IsTab(c) then Blanks(SpacesAt(col, tabSize)) else [c];
    assert [c][1..] == [] && piece + [] == piece;
    assert Expanded(col, [c], tabSize) == piece + Expanded(Advance(col, c, tabSize), [c][1..], tabSize);
  }

  lemma NextStop(col: nat, tabSize: nat)
    requires 0 < tabSize
    ensures col + SpacesAt(col, tabSize) == (col / tabSize + 1) * tabSize
  {
  }

  /** How the client shows a message: tabs expanded, then wrapped, whatever the content. If the content is
      well formed, as its sender's repair makes it, no line splits a character and no tab is left. */
  lemma DisplayCorrect(content: Text, tabSize: nat, maxWidth: int)
    requires 0 < tabSize && 2 <= maxWidth
    ensures var text := ExpandedText(0, content, tabSize);
      var lines := Wrapped([], text, maxWidth);
      && Join(lines) == text
      && (forall i | 0 <= i < |lines| :: lines[i] != [] && Width(Chars(lines[i])) <= maxWidth)
      && (forall split :: IsSplit(text, split, maxWidth) ==> |lines| <= |split|)
      && (WellFormed(content) ==> TAB !in text && forall i | 0 <= i < |lines| :: WellFormed(lines[i]))
  {
    var text := ExpandedText(0, content, tabSize);
    WidthTwoSuffices(text, maxWidth);
    if text == [] {
      WrappedEnd([], maxWidth);
    } else {
      WrapContentCorrect(text, maxWidth);
    }
    if WellFormed(content) {
      ExpandWellFormed(content, tabSize);
      WrapKeepsCharacters(text, maxWidth);
    }
  }
}
