/**
  Rendering a document to HTML (server/sandbox/munim_docs.py: _e, _blocks_html, _bar, _cell,
  _chart_value, _align and the body that build_html puts around the blocks).

  Two readers of HTML serve as reference: `Nest` keeps the stack of open elements, `TextOf`
  gives the text a reader sees.
*/
module Documents {
  import opened Basics
  import Money

  // ---------------------------------------------------------------- escaping

  /** str.replace with a one-character pattern. */
  function Replace(s: string, c: char, entity: string): string {
    if s == [] then [] else (if s[0] == c then entity else [s[0]]) + Replace(s[1..], c, entity)
  }

  const AMP: string := ['&', 'a', 'm', 'p', ';']
  const LT: string := ['&', 'l', 't', ';']
  const GT: string := ['&', 'g', 't', ';']
  const QUOT: string := ['&', 'q', 'u', 'o', 't', ';']
  const APOS: string := ['&', '#', 'x', '2', '7', ';']
  const BREAK: string := ['<', 'b', 'r', '>']

  /** html.escape with quotes, then line breaks: six replacements of the whole text in turn. */
  function Escape(s: string): string {
    var angles := Replace(Replace(Replace(s, '&', AMP), '<', LT), '>', GT);
    Replace(Replace(Replace(angles, '"', QUOT), '\'', APOS), '\n', BREAK)
  }

  function EscapeChar(c: char): string {
    if c == '&' then AMP
    else if c == '<' then LT
    else if c == '>' then GT
    else if c == '"' then QUOT
    else if c == '\'' then APOS
    else if c == '\n' then BREAK
    else [c]
  }

  function EscapeEach(s: string): string {
    if s == [] then [] else EscapeChar(s[0]) + EscapeEach(s[1..])
  }

  lemma {:induction false} ReplaceConcat(a: string, b: string, c: char, entity: string)
    ensures Replace(a + b, c, entity) == Replace(a, c, entity) + Replace(b, c, entity)
    decreases |a|
  {
    if a == [] {
      assert a + b == b;
    } else {
      assert (a + b)[1..] == a[1..] + b;
      ReplaceConcat(a[1..], b, c, entity);
    }
  }

  lemma {:induction false} ReplaceAbsent(s: string, c: char, entity: string)
    requires c !in s
    ensures Replace(s, c, entity) == s
    decreases |s|
  {
    if s != [] {
      ReplaceAbsent(s[1..], c, entity);
      assert s == [s[0]] + s[1..];
    }
  }

  lemma ReplaceOne(c: char, entity: string)
    ensures Replace([c], c, entity) == entity
  {
    assert [c][1..] == [];
    assert entity + [] == entity;
  }

  lemma EscapeConcat(a: string, b: string)
    ensures Escape(a + b) == Escape(a) + Escape(b)
  {
    var a1, b1 := Replace(a, '&', AMP), Replace(b, '&', AMP);
    var a2, b2 := Replace(a1, '<', LT), Replace(b1, '<', LT);
    var a3, b3 := Replace(a2, '>', GT), Replace(b2, '>', GT);
    var a4, b4 := Replace(a3, '"', QUOT), Replace(b3, '"', QUOT);
    var a5, b5 := Replace(a4, '\'', APOS), Replace(b4, '\'', APOS);
    hide Replace;
    ReplaceConcat(a, b, '&', AMP);
    ReplaceConcat(a1, b1, '<', LT);
    ReplaceConcat(a2, b2, '>', GT);
    ReplaceConcat(a3, b3, '"', QUOT);
    ReplaceConcat(a4, b4, '\'', APOS);
    ReplaceConcat(a5, b5, '\n', BREAK);
  }

  /** One replacement: it acts on its own character only. */
  lemma ReplaceIn(s: string, c: char, entity: string)
    ensures s == [c] ==> Replace(s, c, entity) == entity
    ensures c !in s ==> Replace(s, c, entity) == s
  {
    if s == [c] {
      ReplaceOne(c, entity);
    } else if c !in s {
      ReplaceAbsent(s, c, entity);
    }
  }

  /** No replacement touches what an earlier one wrote. */
  lemma EscapeOne(c: char)
    ensures Escape([c]) == EscapeChar(c)
  {
    var s1 := Replace([c], '&', AMP);
    var s2 := Replace(s1, '<', LT);
    var s3 := Replace(s2, '>', GT);
    var s4 := Replace(s3, '"', QUOT);
    var s5 := Replace(s4, '\'', APOS);
    hide Replace;
    ReplaceIn([c], '&', AMP);
    assert s1 == if c == '&' then AMP else [c];
    ReplaceIn(s1, '<', LT);
    assert s2 == if c == '<' then LT else s1;
    ReplaceIn(s2, '>', GT);
    assert s3 == if c == '>' then GT else s2;
    ReplaceIn(s3, '"', QUOT);
    assert s4 == if c == '"' then QUOT else s3;
    ReplaceIn(s4, '\'', APOS);
    assert s5 == if c == '\'' then APOS else s4;
    ReplaceIn(s5, '\n', BREAK);
  }

  /** The six whole-text replacements are one replacement of each character. */
  lemma {:induction false} EscapeIsPerCharacter(s: string)
    ensures Escape(s) == EscapeEach(s)
    decreases |s|
  {
    if s != [] {
      assert s == [s[0]] + s[1..];
      EscapeConcat([s[0]], s[1..]);
      EscapeOne(s[0]);
      hide Escape, EscapeChar;
      EscapeIsPerCharacter(s[1..]);
    }
  }

  // ---------------------------------------------------------------- two readers

  const BR: string := ['b', 'r']

  /** The first place of a character, or the length. */
  function Find(s: string, c: char): (i: nat)
    ensures i <= |s| && (i < |s| ==> s[i] == c)
  {
    if s == [] || s[0] == c then 0 else 1 + Find(s[1..], c)
  }

  /** The element name of a tag: what comes before its first space. */
  function NameOf(inside: string): string {
    inside[..Find(inside, ' ')]
  }

  /** The open elements after reading s, or None where it is not well nested; only br has no end tag. */
  function Nest(s: string, open: seq<string>): Option<seq<string>>
    decreases |s|
  {
    if s == [] then Some(open)
    else if s[0] != '<' then Nest(s[1..], open)
    else
      var j := Find(s, '>');
      if j == |s| then None
      else
        assert s[j] == '>';
        var inside, rest := s[1..j], s[j + 1..];
        if inside != [] && inside[0] == '/' then
          if open != [] && open[|open| - 1] == inside[1..] then Nest(rest, open[..|open| - 1]) else None
        else if NameOf(inside) == BR then Nest(rest, open)
        else Nest(rest, open + [NameOf(inside)])
  }

  /** The character a reference at the start of s stands for, and its length. */
  function Reference(s: string): (r: Option<(nat, char)>)
    ensures r.Some? ==> 0 < r.value.0 <= |s|
  {
    if AMP <= s then Some((5, '&'))
    else if LT <= s then Some((4, '<'))
    else if GT <= s then Some((4, '>'))
    else if QUOT <= s then Some((6, '"'))
    else if APOS <= s then Some((6, '\''))
    else None
  }

  /** The text of the page: tags dropped, line breaks and character references read. */
  function TextOf(s: string): string
    decreases |s|
  {
    if s == [] then []
    else if s[0] == '<' then
      var j := Find(s, '>');
      if j == |s| then []
      else (if NameOf(s[1..j]) == BR then ['\n'] else []) + TextOf(s[j + 1..])
    else
      match Reference(s)
      case Some((n, c)) => [c] + TextOf(s[n..])
      case None => [s[0]] + TextOf(s[1..])
  }

  /** Wherever html stands it leaves the open elements as they are and shows the text. */
  ghost predicate Renders(html: string, text: string) {
    && (forall rest, open :: Nest(html + rest, open) == Nest(rest, open))
    && (forall rest :: TextOf(html + rest) == text + TextOf(rest))
  }

  lemma RendersWhole(html: string, text: string)
    requires Renders(html, text)
    ensures Nest(html, []) == Some([]) && TextOf(html) == text
  {
    assert html + [] == html && text + [] == text;
    assert Nest(html + [], []) == Nest([], []) && TextOf(html + []) == text + TextOf([]);
  }

  lemma RendersNothing()
    ensures Renders([], [])
  {
    assert forall rest: string :: [] + rest == rest;
  }

  lemma RendersConcat(a: string, s: string, b: string, t: string)
    requires Renders(a, s) && Renders(b, t)
    ensures Renders(a + b, s + t)
  {
    hide Nest, TextOf;
    forall rest, open
      ensures Nest(a + b + rest, open) == Nest(rest, open)
    {
      assert a + b + rest == a + (b + rest);
    }
    forall rest
      ensures TextOf(a + b + rest) == s + t + TextOf(rest)
    {
      assert a + b + rest == a + (b + rest);
      assert s + t + TextOf(rest) == s + (t + TextOf(rest));
    }
  }

  lemma RendersPlain(c: char)
    requires c != '<' && c != '&'
    ensures Renders([c], [c])
  {
    forall rest, open
      ensures Nest([c] + rest, open) == Nest(rest, open)
    {
      assert ([c] + rest)[1..] == rest && ([c] + rest)[0] == c;
    }
    forall rest
      ensures TextOf([c] + rest) == [c] + TextOf(rest)
    {
      assert ([c] + rest)[1..] == rest && ([c] + rest)[0] == c;
    }
  }

  lemma {:induction false} NestSkips(s: string, rest: string, open: seq<string>)
    requires '<' !in s
    ensures Nest(s + rest, open) == Nest(rest, open)
    decreases |s|
  {
    if s == [] {
      assert s + rest == rest;
    } else {
      assert (s + rest)[1..] == s[1..] + rest && (s + rest)[0] == s[0];
      NestSkips(s[1..], rest, open);
    }
  }

  lemma RendersReference(entity: string, c: char)
    requires (entity, c) in {(AMP, '&'), (LT, '<'), (GT, '>'), (QUOT, '"'), (APOS, '\'')}
    ensures Renders(entity, [c])
  {
    forall rest, open
      ensures Nest(entity + rest, open) == Nest(rest, open)
    {
      NestSkips(entity, rest, open);
    }
    forall rest
      ensures TextOf(entity + rest) == [c] + TextOf(rest)
    {
      ReferenceAt(entity, c, rest);
      assert (entity + rest)[|entity|..] == rest;
    }
  }

  lemma ReferenceAt(entity: string, c: char, rest: string)
    requires (entity, c) in {(AMP, '&'), (LT, '<'), (GT, '>'), (QUOT, '"'), (APOS, '\'')}
    ensures Reference(entity + rest) == Some((|entity|, c)) && entity[0] == '&'
  {
    var s := entity + rest;
    assert forall i :: 0 <= i < |entity| ==> s[i] == entity[i];
    assert entity <= s;
    assert AMP <= s ==> s[1] == AMP[1];
    assert LT <= s ==> s[1] == LT[1];
    assert GT <= s ==> s[1] == GT[1];
    assert QUOT <= s ==> s[1] == QUOT[1];
    assert s[1] == entity[1];
  }

  // ---------------------------------------------------------------- tags

  predicate TagName(name: string) {
    name != [] && name != BR && name[0] != '/' && '>' !in name && ' ' !in name
  }

  predicate Attributes(attributes: string) {
    (attributes == [] || attributes[0] == ' ') && '>' !in attributes
  }

  function Open(name: string, attributes: string): string {
    ['<'] + (name + attributes) + ['>']
  }

  function Close(name: string): string {
    ['<'] + (['/'] + name) + ['>']
  }

  function Tag(name: string, attributes: string, content: string): string {
    Open(name, attributes) + content + Close(name)
  }

  lemma {:induction false} FindAfter(s: string, c: char, rest: string)
    requires c !in s
    ensures Find(s + [c] + rest, c) == |s|
    decreases |s|
  {
    if s == [] {
      assert s + [c] + rest == [c] + rest;
    } else {
      assert (s + [c] + rest)[1..] == s[1..] + [c] + rest && (s + [c] + rest)[0] == s[0];
      FindAfter(s[1..], c, rest);
    }
  }

  lemma {:induction false} FindNone(s: string, c: char)
    requires c !in s
    ensures Find(s, c) == |s|
  {
    if s != [] {
      FindNone(s[1..], c);
    }
  }

  /** Where the first tag of a text ends. */
  lemma TagSplits(inside: string, rest: string)
    requires '>' !in inside
    ensures var s := ['<'] + inside + ['>'] + rest;
            var j := Find(s, '>');
            s != [] && s[0] == '<' && j == |inside| + 1 < |s| && s[1..j] == inside && s[j + 1..] == rest
  {
    var s := ['<'] + inside + ['>'] + rest;
    FindAfter(['<'] + inside, '>', rest);
  }

  lemma NameIn(name: string, attributes: string)
    requires TagName(name) && Attributes(attributes)
    ensures NameOf(name + attributes) == name
  {
    if attributes == [] {
      assert name + attributes == name;
      FindNone(name, ' ');
    } else {
      FindAfter(name, ' ', attributes[1..]);
      assert name + [' '] + attributes[1..] == name + attributes;
    }
  }

  lemma OpenReads(name: string, attributes: string, rest: string, open: seq<string>)
    requires TagName(name) && Attributes(attributes)
    ensures Nest(Open(name, attributes) + rest, open) == Nest(rest, open + [name])
    ensures TextOf(Open(name, attributes) + rest) == TextOf(rest)
  {
    NameIn(name, attributes);
    TagSplits(name + attributes, rest);
    assert (name + attributes)[0] == name[0];
    hide NameOf, Find;
    assert [] + TextOf(rest) == TextOf(rest);
  }

  lemma CloseReads(name: string, rest: string, open: seq<string>)
    requires TagName(name)
    ensures Nest(Close(name) + rest, open + [name]) == Nest(rest, open)
    ensures TextOf(Close(name) + rest) == TextOf(rest)
  {
    var inside := ['/'] + name;
    TagSplits(inside, rest);
    assert inside[0] == '/' && inside[1..] == name;
    NotBreak(inside);
    hide NameOf, Find;
    assert (open + [name])[..|open|] == open;
    assert [] + TextOf(rest) == TextOf(rest);
  }

  lemma NotBreak(inside: string)
    requires inside != [] && inside[0] == '/'
    ensures NameOf(inside) != BR
  {
    if Find(inside, ' ') > 0 {
      assert NameOf(inside)[0] == '/';
    }
  }

  lemma RendersBreak()
    ensures Renders(BREAK, ['\n'])
  {
    FindNone(BR, ' ');
    assert BREAK == ['<'] + BR + ['>'];
    forall rest, open
      ensures Nest(BREAK + rest, open) == Nest(rest, open)
    {
      TagSplits(BR, rest);
    }
    forall rest
      ensures TextOf(BREAK + rest) == ['\n'] + TextOf(rest)
    {
      TagSplits(BR, rest);
    }
  }

  /** An element shows what its content shows. */
  lemma RendersTag(name: string, attributes: string, content: string, text: string)
    requires TagName(name) && Attributes(attributes) && Renders(content, text)
    ensures Renders(Tag(name, attributes, content), text)
  {
    hide Nest, TextOf, Open, Close, TagName, Attributes;
    var html := Tag(name, attributes, content);
    forall rest, open
      ensures Nest(html + rest, open) == Nest(rest, open)
    {
      assert html + rest == Open(name, attributes) + (content + (Close(name) + rest));
      OpenReads(name, attributes, content + (Close(name) + rest), open);
      CloseReads(name, rest, open);
    }
    forall rest
      ensures TextOf(html + rest) == text + TextOf(rest)
    {
      assert html + rest == Open(name, attributes) + (content + (Close(name) + rest));
      OpenReads(name, attributes, content + (Close(name) + rest), []);
      CloseReads(name, rest, []);
    }
  }

  lemma RendersChar(c: char)
    ensures Renders(EscapeChar(c), [c])
  {
    hide Renders;
    if c in {'&', '<', '>', '"', '\''} {
      RendersReference(EscapeChar(c), c);
    } else if c == '\n' {
      RendersBreak();
    } else {
      RendersPlain(c);
    }
  }

  /** Escaped text shows exactly the text and disturbs no element. */
  lemma RendersEscaped(s: string)
    ensures Renders(Escape(s), s)
  {
    EscapeIsPerCharacter(s);
    RendersEach(s);
  }

  lemma {:induction false} RendersEach(s: string)
    ensures Renders(EscapeEach(s), s)
    decreases |s|
  {
    hide Renders, EscapeChar;
    if s == [] {
      RendersNothing();
    } else {
      RendersEach(s[1..]);
      RendersChar(s[0]);
      RendersConcat(EscapeChar(s[0]), [s[0]], EscapeEach(s[1..]), s[1..]);
      assert s == [s[0]] + s[1..];
    }
  }

  /** Two texts that are escaped alike are the same text. */
  lemma EscapeIsInjective(s: string, t: string)
    requires Escape(s) == Escape(t)
    ensures s == t
  {
    hide Renders, Escape;
    RendersEscaped(s);
    RendersEscaped(t);
    RendersWhole(Escape(s), s);
    RendersWhole(Escape(t), t);
  }

  // ---------------------------------------------------------------- values in the blocks

  /** A value of the spec: how str shows it, and the number it is, if it is one. */
  datatype Value = Absent | Given(shown: string, number: Option<real>)

  datatype Kind = Rupees | Words

  datatype Align = Unset | Right | Center | Other

  datatype Column = Column(title: string, kind: Kind, align: Align)

  datatype Stat = Stat(title: string, tone: Tone, value: string, hint: string)

  datatype Tone = Bad | Good | Warn | Neutral

  datatype Bar = Bar(title: string, value: Value)

  /** An absent text is an empty one. */
  datatype Block =
    | Heading(text: string)
    | Paragraph(text: string)
    | Letter(text: string)
    | Note(text: string)
    | Signature(text: string)
    | KeyValues(items: seq<(string, string)>)
    | Stats(stats: seq<Stat>)
    | BarChart(title: string, bars: seq<Bar>, money: bool)
    | Table(columns: seq<Column>, rows: seq<seq<Value>>, empty: string, total: seq<Value>, caption: string)
    | Unknown

  const DASH: string := ['\U{2013}']

  predicate Blank(v: Value) {
    v.Absent? || v.shown == []
  }

  function Rupee(x: real): string {
    Money.Printed(Money.RoundHalfUp(x, 2), 2, true)
  }

  /** Whether formatting a cell raises: an amount that is no number. */
  predicate CellRaises(v: Value, kind: Kind) {
    kind.Rupees? && !Blank(v) && v.number.None?
  }

  function CellText(v: Value, kind: Kind): string {
    if Blank(v) then if kind.Rupees? then DASH else []
    else if kind.Rupees? then if v.number.Some? then Rupee(v.number.value) else []
    else v.shown
  }

  /** A money cell reads back as its amount in whole paise, a blank one as no amount. */
  lemma MoneyCellReadsBack(v: Value)
    requires !CellRaises(v, Rupees)
    ensures Money.ParseAmount(CellText(v, Rupees))
            == if Blank(v) then None else Some(Money.Worth(Money.RoundHalfUp(v.number.value, 2), 2))
  {
    if Blank(v) {
      assert Money.Scrub(DASH, 0) == DASH;
    } else {
      hide Money.Printed, Money.RoundHalfUp, Money.ParseAmount, Money.Worth;
      Money.PrintThenParse(v.number.value, 2, true);
    }
  }

  predicate AmountRaises(v: Value) {
    !Blank(v) && v.number.None?
  }

  /** The number of a bar; nothing counts as zero. */
  function Amount(v: Value): real {
    if Blank(v) || v.number.None? then 0.0 else v.number.value
  }

  function ChartText(v: Value, money: bool): string {
    match v
    case Absent => DASH
    case Given(shown, _) => if Amount(v) == 0.0 then DASH else if money then Rupee(Amount(v)) else shown
  }

  /** What a cell of words and a bar of a chart show, and how a bar's rupees read back. */
  lemma ShownMeaning(v: Value)
    ensures v == Absent ==> CellText(v, Words) == [] && ChartText(v, true) == ChartText(v, false) == DASH
    ensures v.Given? ==> CellText(v, Words) == v.shown
    ensures v.Given? && (v.shown == [] || v.number in {None, Some(0.0)}) ==>
              ChartText(v, true) == ChartText(v, false) == DASH
    ensures v.Given? && v.shown != [] && v.number !in {None, Some(0.0)} ==>
              && ChartText(v, false) == v.shown
              && Money.ParseAmount(ChartText(v, true)) == Some(Money.Worth(Money.RoundHalfUp(v.number.value, 2), 2))
  {
    hide Money.Printed, Money.RoundHalfUp, Money.ParseAmount, Money.Worth;
    if v.Given? && v.number.Some? {
      Money.PrintThenParse(v.number.value, 2, true);
    }
  }

  /** Rupees read back as the amount in whole paise. */
  ghost predicate ReadsAs(text: string, x: real) {
    Money.ParseAmount(text) == Some(Money.Worth(Money.RoundHalfUp(x, 2), 2))
  }

  /** What a cell of that kind should show. */
  ghost predicate CellReads(v: Value, kind: Kind, text: string) {
    match v
    case Absent => text == if kind == Rupees then DASH else []
    case Given(shown, number) =>
      if kind != Rupees then text == shown
      else if shown == [] then text == DASH
      else number.Some? ==> ReadsAs(text, number.value)
  }

  /** What a bar should show behind its title. */
  ghost predicate BarReads(v: Value, money: bool, text: string) {
    match v
    case Absent => text == DASH
    case Given(shown, number) =>
      if shown == [] || number.None? || number.value == 0.0 then text == DASH
      else if money then ReadsAs(text, number.value) else text == shown
  }

  lemma CellShows(v: Value, kind: Kind)
    ensures CellReads(v, kind, CellText(v, kind))
  {
    hide Money.Printed, Money.RoundHalfUp, Money.ParseAmount, Money.Worth;
    if kind == Rupees && v.Given? && v.number.Some? {
      Money.PrintThenParse(v.number.value, 2, true);
    }
  }

  lemma BarShows(v: Value, money: bool)
    ensures BarReads(v, money, ChartText(v, money))
  {
    ShownMeaning(v);
    hide Money.ParseAmount, Money.Worth, Money.RoundHalfUp;
  }

  /** The largest value, at least one in a thousand million. */
  function Top(bars: seq<Bar>): (top: real)
    ensures top > 0.0 && forall b <- bars :: Amount(b.value) <= top
    ensures top == 0.000000001 || exists b <- bars :: Amount(b.value) == top
  {
    if bars == [] then 0.000000001
    else
      var n := |bars| - 1;
      assert forall b <- bars :: b in bars[..n] || b == bars[n];
      Max(Top(bars[..n]), Amount(bars[n].value))
  }

  /** The width of a bar in tenths of a per cent. */
  function Width(x: real, top: real): int
    requires top > 0.0
  {
    Money.RoundHalfUp(Max(0.0, x) / top * 100.0, 1)
  }

  lemma QuotientWithin(x: real, top: real)
    requires 0.0 <= x <= top && top > 0.0
    ensures 0.0 <= x / top <= 1.0
    ensures x == top ==> x / top == 1.0
  {
  }

  /** A width is the nearest number of tenths of a per cent of the top; nothing below zero. */
  lemma WidthMeaning(x: real, top: real)
    requires top > 0.0
    ensures x <= 0.0 ==> Width(x, top) == 0
    ensures x > 0.0 ==> Width(x, top) as real - 0.5 <= x / top * 1000.0 < Width(x, top) as real + 0.5
  {
    var part := Max(0.0, x) / top;
    assert Money.Pow10(1) == 10;
    if x > 0.0 {
      assert part >= 0.0;
    } else {
      assert part == 0.0;
    }
    Money.RoundingMeaning(part * 100.0, 1);
  }

  /** Every bar fits its track, and the longest fills it. */
  lemma BarsFit(bars: seq<Bar>, b: Bar)
    requires b in bars
    ensures 0 <= Width(Amount(b.value), Top(bars)) <= 1000
    ensures Amount(b.value) == Top(bars) ==> Width(Amount(b.value), Top(bars)) == 1000
  {
    var x, top := Max(0.0, Amount(b.value)), Top(bars);
    hide Top, Amount;
    QuotientWithin(x, top);
    var q := x / top;
    assert Money.Pow10(1) == 10;
  }

  // ---------------------------------------------------------------- the blocks as HTML

  function Join(pieces: seq<string>): string {
    if pieces == [] then [] else Join(pieces[..|pieces| - 1]) + pieces[|pieces| - 1]
  }

  /** Pieces are joined in order, with nothing between them. */
  lemma {:induction false} JoinAppend(a: seq<string>, b: seq<string>, piece: string)
    ensures Join(a + b) == Join(a) + Join(b) && Join([piece]) == piece
    decreases |b|
  {
    if b == [] {
      assert a + b == a && Join([piece]) == Join([]) + piece;
    } else {
      var n := |b| - 1;
      assert (a + b)[..|a + b| - 1] == a + b[..n];
      JoinAppend(a, b[..n], piece);
    }
  }

  lemma {:induction false} RendersJoin(pieces: seq<string>, texts: seq<string>)
    requires |pieces| == |texts| && forall i :: 0 <= i < |pieces| ==> Renders(pieces[i], texts[i])
    ensures Renders(Join(pieces), Join(texts))
    decreases |pieces|
  {
    hide Renders;
    if pieces == [] {
      RendersNothing();
    } else {
      var n := |pieces| - 1;
      RendersJoin(pieces[..n], texts[..n]);
      RendersConcat(Join(pieces[..n]), Join(texts[..n]), pieces[n], texts[n]);
    }
  }

  /** The attribute class='...' of an element. */
  function Class(name: string): string {
    " class='" + name + "'"
  }

  lemma ClassIsAttributes(name: string)
    requires '>' !in name
    ensures Attributes(Class(name))
  {
  }

  function ToneText(tone: Tone): string {
    match tone
    case Bad => "#b42318"
    case Good => "#067647"
    case Warn => "#b54708"
    case Neutral => "#1f2933"
  }

  function AlignText(c: Column): string {
    match c.align
    case Right => ['r']
    case Center => ['c']
    case Unset => if c.kind.Rupees? then ['r'] else []
    case Other => []
  }

  function Or(text: string, default: string): string {
    if text == [] then default else text
  }

  function Least(a: nat, b: nat): nat {
    if a <= b then a else b
  }

  const DIV: string := ['d', 'i', 'v']
  const TABLE: string := ['t', 'a', 'b', 'l', 'e']
  const TR: string := ['t', 'r']
  const TD: string := ['t', 'd']
  const TH: string := ['t', 'h']
  const THEAD: string := ['t', 'h', 'e', 'a', 'd']
  const TBODY: string := ['t', 'b', 'o', 'd', 'y']
  const CAPTION: string := ['c', 'a', 'p', 't', 'i', 'o', 'n']
  const H2: string := ['h', '2']
  const P: string := ['p']
  const I: string := ['i']
  const HEADER: string := ['h', 'e', 'a', 'd', 'e', 'r']
  const BODY: string := ['b', 'o', 'd', 'y']

  /** The elements the renderer uses. */
  lemma NamesAreTags(name: string)
    requires name in [DIV, TABLE, TR, TD, TH, THEAD, TBODY, CAPTION, H2, P, I, HEADER, BODY]
    ensures TagName(name)
  {
  }

  function Classed(name: string, className: string, content: string): string {
    Tag(name, Class(className), content)
  }

  function Plainly(name: string, content: string): string {
    Tag(name, [], content)
  }

  predicate Used(name: string) {
    name in [DIV, TABLE, TR, TD, TH, THEAD, TBODY, CAPTION, H2, P, I, HEADER, BODY]
  }

  lemma RendersPlainly(name: string, content: string, text: string)
    requires Used(name) && Renders(content, text)
    ensures Renders(Plainly(name, content), text)
  {
    hide Renders, TagName;
    NamesAreTags(name);
    RendersTag(name, [], content, text);
  }

  lemma RendersClassed(name: string, className: string, content: string, text: string)
    requires Used(name) && '>' !in className && Renders(content, text)
    ensures Renders(Classed(name, className, content), text)
  {
    hide Renders, TagName, Attributes, Class;
    NamesAreTags(name);
    ClassIsAttributes(className);
    RendersTag(name, Class(className), content, text);
  }

  // ---------------------------------------------------------------- rows of two cells

  function PairHtml(pair: (string, string)): string {
    Plainly(TR, Plainly(TD, Escape(pair.0)) + Plainly(TD, Escape(pair.1)))
  }

  function PairsHtml(items: seq<(string, string)>): string {
    Join(seq(|items|, i requires 0 <= i < |items| => PairHtml(items[i])))
  }

  function PairsText(items: seq<(string, string)>): string {
    Join(seq(|items|, i requires 0 <= i < |items| => items[i].0 + items[i].1))
  }

  lemma RendersCell(name: string, s: string)
    requires Used(name)
    ensures Renders(Plainly(name, Escape(s)), s)
  {
    hide Renders, Escape, Used;
    RendersEscaped(s);
    RendersPlainly(name, Escape(s), s);
  }

  lemma RendersPair(pair: (string, string))
    ensures Renders(PairHtml(pair), pair.0 + pair.1)
  {
    hide Renders, Escape, Plainly;
    RendersCell(TD, pair.0);
    RendersCell(TD, pair.1);
    RendersConcat(Plainly(TD, Escape(pair.0)), pair.0, Plainly(TD, Escape(pair.1)), pair.1);
    RendersPlainly(TR, Plainly(TD, Escape(pair.0)) + Plainly(TD, Escape(pair.1)), pair.0 + pair.1);
  }

  lemma RendersPairs(items: seq<(string, string)>)
    ensures Renders(PairsHtml(items), PairsText(items))
  {
    hide Renders, PairHtml, Join;
    forall i | 0 <= i < |items|
      ensures Renders(PairHtml(items[i]), items[i].0 + items[i].1)
    {
      RendersPair(items[i]);
    }
    RendersJoin(seq(|items|, i requires 0 <= i < |items| => PairHtml(items[i])),
                seq(|items|, i requires 0 <= i < |items| => items[i].0 + items[i].1));
  }

  // ---------------------------------------------------------------- statistics

  function ToneStyle(tone: Tone): string {
    " style='color:" + ToneText(tone) + "'"
  }

  lemma ToneIsAttributes(tone: Tone)
    ensures Attributes(Class("stat-v") + ToneStyle(tone))
  {
    assert '>' !in "stat-v";
    ClassIsAttributes("stat-v");
    assert '>' !in ToneText(tone);
    assert '>' !in " style='color:";
    hide ToneText;
    assert (Class("stat-v") + ToneStyle(tone))[0] == Class("stat-v")[0];
  }

  function HintHtml(hint: string): string {
    if hint == [] then [] else Tag(DIV, " class=stat-h", Escape(hint))
  }

  function StatHtml(s: Stat): string {
    Plainly(TD, Classed(DIV, "stat-l", Escape(s.title))
                + Tag(DIV, Class("stat-v") + ToneStyle(s.tone), Escape(s.value)) + HintHtml(s.hint))
  }

  function StatText(s: Stat): string {
    s.title + s.value + s.hint
  }

  lemma RendersOptional(attributes: string, s: string)
    requires Attributes(attributes)
    ensures Renders(if s == [] then [] else Tag(DIV, attributes, Escape(s)), s)
  {
    hide Renders, Escape, Tag, TagName, Attributes;
    if s == [] {
      RendersNothing();
    } else {
      NamesAreTags(DIV);
      RendersEscaped(s);
      RendersTag(DIV, attributes, Escape(s), s);
    }
  }

  lemma RendersClassedCell(name: string, className: string, s: string)
    requires Used(name) && '>' !in className
    ensures Renders(Classed(name, className, Escape(s)), s)
  {
    hide Renders, Escape, Used;
    RendersEscaped(s);
    RendersClassed(name, className, Escape(s), s);
  }

  lemma RendersStat(s: Stat)
    ensures Renders(StatHtml(s), StatText(s))
  {
    var a := Classed(DIV, "stat-l", Escape(s.title));
    var b := Tag(DIV, Class("stat-v") + ToneStyle(s.tone), Escape(s.value));
    var c := HintHtml(s.hint);
    StatParts(s);
    hide Renders, Escape, Plainly, Classed, Tag, HintHtml, Class, ToneStyle;
    RendersConcat(a, s.title, b, s.value);
    RendersConcat(a + b, s.title + s.value, c, s.hint);
    RendersPlainly(TD, a + b + c, StatText(s));
  }

  lemma StatParts(s: Stat)
    ensures Renders(Classed(DIV, "stat-l", Escape(s.title)), s.title)
    ensures Renders(Tag(DIV, Class("stat-v") + ToneStyle(s.tone), Escape(s.value)), s.value)
    ensures Renders(HintHtml(s.hint), s.hint)
  {
    assert '>' !in "stat-l" && Attributes(" class=stat-h");
    hide Renders, Escape, Classed, Tag, Class, ToneStyle, TagName, Attributes;
    NamesAreTags(DIV);
    RendersClassedCell(DIV, "stat-l", s.title);
    ToneIsAttributes(s.tone);
    RendersEscaped(s.value);
    RendersTag(DIV, Class("stat-v") + ToneStyle(s.tone), Escape(s.value), s.value);
    RendersOptional(" class=stat-h", s.hint);
  }

  function StatsHtml(stats: seq<Stat>): string {
    Classed(DIV, "statwrap", Classed(TABLE, "stats",
      Plainly(TR, Join(seq(|stats|, i requires 0 <= i < |stats| => StatHtml(stats[i]))))))
  }

  function StatsText(stats: seq<Stat>): string {
    Join(seq(|stats|, i requires 0 <= i < |stats| => StatText(stats[i])))
  }

  lemma RendersStats(stats: seq<Stat>)
    ensures Renders(StatsHtml(stats), StatsText(stats))
  {
    assert '>' !in "statwrap" && '>' !in "stats";
    hide Renders, StatHtml, StatText, Join, Plainly, Classed;
    forall i | 0 <= i < |stats|
      ensures Renders(StatHtml(stats[i]), StatText(stats[i]))
    {
      RendersStat(stats[i]);
    }
    var cells := seq(|stats|, i requires 0 <= i < |stats| => StatHtml(stats[i]));
    RendersJoin(cells, seq(|stats|, i requires 0 <= i < |stats| => StatText(stats[i])));
    RendersPlainly(TR, Join(cells), StatsText(stats));
    RendersClassed(TABLE, "stats", Plainly(TR, Join(cells)), StatsText(stats));
    RendersClassed(DIV, "statwrap", Classed(TABLE, "stats", Plainly(TR, Join(cells))), StatsText(stats));
  }

  // ---------------------------------------------------------------- bar charts

  function WidthStyle(tenths: int): string {
    " style='width:" + Money.Sign(tenths) + Money.WholePart(tenths, 1) + ['.'] + Money.FractionPart(tenths, 1) + "%'"
  }

  function TrackHtml(x: real, top: real): string
    requires top > 0.0
  {
    if x > 0.0 then Tag(I, WidthStyle(Width(x, top)), []) else []
  }

  function BarHtml(b: Bar, top: real, money: bool): string
    requires top > 0.0
  {
    Classed(DIV, "bar",
      Classed(DIV, "lab", Escape(b.title)) + Classed(DIV, "trk", TrackHtml(Amount(b.value), top))
      + Classed(DIV, if Amount(b.value) == 0.0 then "val zero" else "val", Escape(ChartText(b.value, money))))
  }

  lemma WidthIsAttributes(tenths: int)
    ensures Attributes(WidthStyle(tenths))
  {
    var a, b := Money.WholePart(tenths, 1), Money.FractionPart(tenths, 1);
    DigitsAreNoBracket(a);
    DigitsAreNoBracket(b);
    assert '>' !in " style='width:" && '>' !in "%'" && '>' !in Money.Sign(tenths);
    assert WidthStyle(tenths)[0] == ' ';
  }

  lemma DigitsAreNoBracket(s: string)
    requires Money.AllDigits(s)
    ensures '>' !in s
  {
  }

  lemma RendersTrack(x: real, top: real)
    requires top > 0.0
    ensures Renders(TrackHtml(x, top), [])
  {
    hide Renders, Tag, Attributes, WidthStyle, Width, TagName;
    RendersNothing();
    NamesAreTags(I);
    if x > 0.0 {
      WidthIsAttributes(Width(x, top));
      RendersTag(I, WidthStyle(Width(x, top)), [], []);
    }
  }

  /** A bar above zero is one element whose style gives its width in per cent, with one digit after the point. */
  lemma TrackMeaning(x: real, top: real) returns (whole: string, frac: string)
    requires top > 0.0 && x > 0.0
    ensures Money.AllDigits(whole) && Money.AllDigits(frac) && |frac| == 1
    ensures Money.Value(whole) * 10 + Money.Value(frac) == Width(x, top)
    ensures TrackHtml(x, top) == Tag(I, " style='width:" + whole + ['.'] + frac + "%'", [])
  {
    var tenths := Width(x, top);
    WidthMeaning(x, top);
    assert x / top > 0.0;
    whole, frac := Money.WholePart(tenths, 1), Money.FractionPart(tenths, 1);
    hide Width, Tag;
    Money.PrintedValue(tenths, 1);
    assert Money.Pow10(1) == 10;
    assert Money.Sign(tenths) == [];
    assert " style='width:" + [] == " style='width:";
  }

  function BarText(b: Bar, money: bool): string {
    b.title + ChartText(b.value, money)
  }

  lemma RendersBar(b: Bar, top: real, money: bool)
    requires top > 0.0
    ensures Renders(BarHtml(b, top, money), BarText(b, money))
  {
    var className := if Amount(b.value) == 0.0 then "val zero" else "val";
    assert '>' !in "bar" && '>' !in "lab" && '>' !in "trk" && '>' !in className;
    var caption, track := Classed(DIV, "lab", Escape(b.title)), TrackHtml(Amount(b.value), top);
    var shown := ChartText(b.value, money);
    var value := Classed(DIV, className, Escape(shown));
    hide Renders, Escape, Classed, TrackHtml, ChartText, Amount;
    RendersClassedCell(DIV, "lab", b.title);
    RendersTrack(Amount(b.value), top);
    RendersClassed(DIV, "trk", track, []);
    RendersClassedCell(DIV, className, shown);
    RendersConcat(caption, b.title, Classed(DIV, "trk", track), []);
    assert b.title + [] == b.title;
    RendersConcat(caption + Classed(DIV, "trk", track), b.title, value, shown);
    RendersClassed(DIV, "bar", caption + Classed(DIV, "trk", track) + value, b.title + shown);
  }

  function ChartHtml(title: string, bars: seq<Bar>, money: bool): string {
    Classed(DIV, "chart", (if title == [] then [] else Tag(DIV, " class=t", Escape(title)))
                          + Join(seq(|bars|, i requires 0 <= i < |bars| => BarHtml(bars[i], Top(bars), money))))
  }

  function BarsText(bars: seq<Bar>, money: bool): string {
    Join(seq(|bars|, i requires 0 <= i < |bars| => BarText(bars[i], money)))
  }

  /** The bars show their titles and values, in order. */
  lemma BarsRead(bars: seq<Bar>, money: bool) returns (values: seq<string>)
    ensures |values| == |bars| && forall i :: 0 <= i < |bars| ==> BarReads(bars[i].value, money, values[i])
    ensures BarsText(bars, money) == Join(seq(|bars|, i requires 0 <= i < |bars| => bars[i].title + values[i]))
  {
    hide ChartText, BarReads, Join;
    values := seq(|bars|, i requires 0 <= i < |bars| => ChartText(bars[i].value, money));
    forall i | 0 <= i < |bars|
      ensures BarReads(bars[i].value, money, values[i])
    {
      BarShows(bars[i].value, money);
    }
    var texts := seq(|bars|, i requires 0 <= i < |bars| => BarText(bars[i], money));
    assert texts == seq(|bars|, i requires 0 <= i < |bars| => bars[i].title + values[i]);
  }

  lemma RendersChart(title: string, bars: seq<Bar>, money: bool)
    ensures Renders(ChartHtml(title, bars, money), title + BarsText(bars, money))
  {
    assert '>' !in "chart" && Attributes(" class=t");
    var heading := if title == [] then [] else Tag(DIV, " class=t", Escape(title));
    hide Renders, BarHtml, BarText, Join, Classed, Tag, Escape, Attributes, Top;
    forall i | 0 <= i < |bars|
      ensures Renders(BarHtml(bars[i], Top(bars), money), BarText(bars[i], money))
    {
      RendersBar(bars[i], Top(bars), money);
    }
    var rows := seq(|bars|, i requires 0 <= i < |bars| => BarHtml(bars[i], Top(bars), money));
    RendersJoin(rows, seq(|bars|, i requires 0 <= i < |bars| => BarText(bars[i], money)));
    RendersOptional(" class=t", title);
    RendersConcat(heading, title, Join(rows), BarsText(bars, money));
    RendersClassed(DIV, "chart", heading + Join(rows), title + BarsText(bars, money));
  }

  // ---------------------------------------------------------------- tables

  function HeadHtml(columns: seq<Column>): string {
    Join(seq(|columns|, i requires 0 <= i < |columns| => Classed(TH, AlignText(columns[i]), Escape(columns[i].title))))
  }

  function HeadText(columns: seq<Column>): string {
    Join(seq(|columns|, i requires 0 <= i < |columns| => columns[i].title))
  }

  lemma AlignIsHarmless(c: Column)
    ensures '>' !in AlignText(c)
  {
  }

  lemma RendersHead(columns: seq<Column>)
    ensures Renders(HeadHtml(columns), HeadText(columns))
  {
    hide Renders, Join, Classed, Escape, AlignText;
    forall i | 0 <= i < |columns|
      ensures Renders(Classed(TH, AlignText(columns[i]), Escape(columns[i].title)), columns[i].title)
    {
      AlignIsHarmless(columns[i]);
      RendersClassedCell(TH, AlignText(columns[i]), columns[i].title);
    }
    RendersJoin(seq(|columns|, i requires 0 <= i < |columns| =>
                      Classed(TH, AlignText(columns[i]), Escape(columns[i].title))),
                seq(|columns|, i requires 0 <= i < |columns| => columns[i].title));
  }

  function CellHtml(c: Column, v: Value): string {
    Classed(TD, AlignText(c), Escape(CellText(v, c.kind)))
  }

  /** The cells of a row; values beyond the columns, and columns beyond the values, are left out. */
  function CellsHtml(columns: seq<Column>, row: seq<Value>): string {
    Join(seq(Least(|columns|, |row|), i requires 0 <= i < Least(|columns|, |row|) => CellHtml(columns[i], row[i])))
  }

  function CellsText(columns: seq<Column>, row: seq<Value>): string {
    Join(seq(Least(|columns|, |row|), i requires 0 <= i < Least(|columns|, |row|) => CellText(row[i], columns[i].kind)))
  }

  /** A row shows its cells up to the shorter of row and columns, in order, each by the kind of its column. */
  lemma RowReads(columns: seq<Column>, row: seq<Value>) returns (texts: seq<string>)
    ensures CellsText(columns, row) == Join(texts)
    ensures |texts| <= |columns| && |texts| <= |row| && (|texts| == |columns| || |texts| == |row|)
    ensures forall i :: 0 <= i < |texts| ==> CellReads(row[i], columns[i].kind, texts[i])
  {
    hide CellText, CellReads, Join;
    texts := seq(Least(|columns|, |row|),
                 i requires 0 <= i < Least(|columns|, |row|) => CellText(row[i], columns[i].kind));
    forall i | 0 <= i < |texts|
      ensures CellReads(row[i], columns[i].kind, texts[i])
    {
      CellShows(row[i], columns[i].kind);
    }
  }

  lemma RendersCells(columns: seq<Column>, row: seq<Value>)
    ensures Renders(CellsHtml(columns, row), CellsText(columns, row))
  {
    hide Renders, Join, Classed, Escape, AlignText, CellText;
    var n := Least(|columns|, |row|);
    forall i | 0 <= i < n
      ensures Renders(CellHtml(columns[i], row[i]), CellText(row[i], columns[i].kind))
    {
      AlignIsHarmless(columns[i]);
      RendersClassedCell(TD, AlignText(columns[i]), CellText(row[i], columns[i].kind));
    }
    hide CellHtml;
    RendersJoin(
      seq(Least(|columns|, |row|), i requires 0 <= i < Least(|columns|, |row|) => CellHtml(columns[i], row[i])),
      seq(Least(|columns|, |row|), i requires 0 <= i < Least(|columns|, |row|) => CellText(row[i], columns[i].kind)));
  }

  function RowsHtml(columns: seq<Column>, rows: seq<seq<Value>>): string {
    Join(seq(|rows|, i requires 0 <= i < |rows| => Plainly(TR, CellsHtml(columns, rows[i]))))
  }

  function RowsText(columns: seq<Column>, rows: seq<seq<Value>>): string {
    Join(seq(|rows|, i requires 0 <= i < |rows| => CellsText(columns, rows[i])))
  }

  lemma RendersRows(columns: seq<Column>, rows: seq<seq<Value>>)
    ensures Renders(RowsHtml(columns, rows), RowsText(columns, rows))
  {
    hide Renders, Join, Plainly, CellsHtml, CellsText;
    forall i | 0 <= i < |rows|
      ensures Renders(Plainly(TR, CellsHtml(columns, rows[i])), CellsText(columns, rows[i]))
    {
      RendersCells(columns, rows[i]);
      RendersPlainly(TR, CellsHtml(columns, rows[i]), CellsText(columns, rows[i]));
    }
    RendersJoin(seq(|rows|, i requires 0 <= i < |rows| => Plainly(TR, CellsHtml(columns, rows[i]))),
                seq(|rows|, i requires 0 <= i < |rows| => CellsText(columns, rows[i])));
  }

  const NOTHING: string := "Nothing to show"
  const SIGNATORY: string := "Authorised signatory"

  function Span(n: nat): string {
    " colspan='" + Money.Digits(n) + "'"
  }

  function EmptyHtml(columns: seq<Column>, empty: string): string {
    Classed(TR, "empty", Tag(TD, Span(|columns|), Escape(Or(empty, NOTHING))))
  }

  lemma RendersEmpty(columns: seq<Column>, empty: string)
    ensures Renders(EmptyHtml(columns, empty), Or(empty, NOTHING))
  {
    DigitsAreNoBracket(Money.Digits(|columns|));
    assert '>' !in " colspan='" && '>' !in "'" && '>' !in "empty" && Span(|columns|)[0] == ' ';
    assert Attributes(Span(|columns|));
    var text := Or(empty, NOTHING);
    hide Renders, Classed, Tag, Escape, Attributes, Or, Span, TagName;
    NamesAreTags(TD);
    RendersEscaped(text);
    RendersTag(TD, Span(|columns|), Escape(text), text);
    RendersClassed(TR, "empty", Tag(TD, Span(|columns|), Escape(text)), text);
  }

  function BodyHtml(columns: seq<Column>, rows: seq<seq<Value>>, empty: string): string {
    if rows == [] then EmptyHtml(columns, empty) else RowsHtml(columns, rows)
  }

  function FootHtml(columns: seq<Column>, total: seq<Value>): string {
    if total == [] then [] else Classed(TR, "total", CellsHtml(columns, total))
  }

  function TableHtml(columns: seq<Column>, rows: seq<seq<Value>>, empty: string, total: seq<Value>, caption: string)
    : string
  {
    Classed(TABLE, "data",
      (if caption == [] then [] else Plainly(CAPTION, Escape(caption)))
      + Plainly(THEAD, Plainly(TR, HeadHtml(columns)))
      + Plainly(TBODY, BodyHtml(columns, rows, empty) + FootHtml(columns, total)))
  }

  function TableText(columns: seq<Column>, rows: seq<seq<Value>>, empty: string, total: seq<Value>, caption: string)
    : string
  {
    caption + HeadText(columns)
    + ((if rows == [] then Or(empty, NOTHING) else RowsText(columns, rows)) + CellsText(columns, total))
  }

  lemma RendersBody(columns: seq<Column>, rows: seq<seq<Value>>, empty: string, total: seq<Value>)
    ensures Renders(BodyHtml(columns, rows, empty) + FootHtml(columns, total),
                    (if rows == [] then Or(empty, NOTHING) else RowsText(columns, rows)) + CellsText(columns, total))
  {
    assert '>' !in "total";
    assert total == [] ==> CellsText(columns, total) == [];
    hide Renders, EmptyHtml, RowsHtml, RowsText, CellsHtml, CellsText, Classed, Or;
    RendersNothing();
    RendersEmpty(columns, empty);
    RendersRows(columns, rows);
    RendersCells(columns, total);
    RendersClassed(TR, "total", CellsHtml(columns, total), CellsText(columns, total));
    RendersConcat(BodyHtml(columns, rows, empty), if rows == [] then Or(empty, NOTHING) else RowsText(columns, rows),
                  FootHtml(columns, total), CellsText(columns, total));
  }

  lemma RendersTable(columns: seq<Column>, rows: seq<seq<Value>>, empty: string, total: seq<Value>, caption: string)
    ensures Renders(TableHtml(columns, rows, empty, total, caption), TableText(columns, rows, empty, total, caption))
  {
    var cap := if caption == [] then [] else Plainly(CAPTION, Escape(caption));
    var head := Plainly(THEAD, Plainly(TR, HeadHtml(columns)));
    var inner := BodyHtml(columns, rows, empty) + FootHtml(columns, total);
    var text := (if rows == [] then Or(empty, NOTHING) else RowsText(columns, rows)) + CellsText(columns, total);
    assert '>' !in "data";
    hide Renders, HeadHtml, HeadText, BodyHtml, FootHtml, RowsText, CellsText, Or, Plainly, Classed, Escape;
    RendersNothing();
    RendersCell(CAPTION, caption);
    RendersHead(columns);
    RendersPlainly(TR, HeadHtml(columns), HeadText(columns));
    RendersPlainly(THEAD, Plainly(TR, HeadHtml(columns)), HeadText(columns));
    RendersBody(columns, rows, empty, total);
    RendersPlainly(TBODY, inner, text);
    RendersConcat(cap, caption, head, HeadText(columns));
    RendersConcat(cap + head, caption + HeadText(columns), Plainly(TBODY, inner), text);
    RendersClassed(TABLE, "data", cap + head + Plainly(TBODY, inner), caption + HeadText(columns) + text);
  }

  // ---------------------------------------------------------------- whole documents

  function BlockHtml(b: Block): string {
    match b
    case Heading(text) => Plainly(H2, Escape(text))
    case Paragraph(text) => Plainly(P, Escape(text))
    case Letter(text) => Classed(DIV, "letter", Escape(text))
    case Note(text) => Classed(DIV, "note", Escape(text))
    case Signature(text) => Classed(DIV, "sign", Escape(Or(text, SIGNATORY)))
    case KeyValues(items) => Classed(TABLE, "kv", PairsHtml(items))
    case Stats(stats) => StatsHtml(stats)
    case BarChart(title, bars, money) => ChartHtml(title, bars, money)
    case Table(columns, rows, empty, total, caption) => TableHtml(columns, rows, empty, total, caption)
    case Unknown => []
  }

  /** What a reader of the block should see. */
  function BlockText(b: Block): string {
    match b
    case Heading(text) => text
    case Paragraph(text) => text
    case Letter(text) => text
    case Note(text) => text
    case Signature(text) => Or(text, SIGNATORY)
    case KeyValues(items) => PairsText(items)
    case Stats(stats) => StatsText(stats)
    case BarChart(title, bars, money) => title + BarsText(bars, money)
    case Table(columns, rows, empty, total, caption) => TableText(columns, rows, empty, total, caption)
    case Unknown => []
  }

  lemma RendersBlock(b: Block)
    ensures Renders(BlockHtml(b), BlockText(b))
  {
    hide Renders, Plainly, Classed, Escape, PairsHtml, PairsText, StatsHtml, StatsText, ChartHtml, BarsText;
    hide TableHtml, TableText, Or;
    match b
    case Heading(text) => RendersCell(H2, text);
    case Paragraph(text) => RendersCell(P, text);
    case Letter(text) => RendersClassedCell(DIV, "letter", text);
    case Note(text) => RendersClassedCell(DIV, "note", text);
    case Signature(text) => RendersClassedCell(DIV, "sign", Or(text, SIGNATORY));
    case KeyValues(items) =>
      RendersPairs(items);
      RendersClassed(TABLE, "kv", PairsHtml(items), PairsText(items));
    case Stats(stats) => RendersStats(stats);
    case BarChart(title, bars, money) => RendersChart(title, bars, money);
    case Table(columns, rows, empty, total, caption) => RendersTable(columns, rows, empty, total, caption);
    case Unknown => RendersNothing();
  }

  /** A table without rows and a signature without a name show stand-ins. */
  lemma StandIns(columns: seq<Column>)
    ensures TextOf(BlockHtml(Table(columns, [], [], [], []))) == HeadText(columns) + "Nothing to show"
    ensures TextOf(BlockHtml(Signature([]))) == "Authorised signatory"
  {
    var table := Table(columns, [], [], [], []);
    assert BlockText(table) == HeadText(columns) + "Nothing to show";
    assert BlockText(Signature([])) == "Authorised signatory";
    hide BlockHtml, BlockText, Nest, TextOf;
    RendersBlock(table);
    RendersWhole(BlockHtml(table), BlockText(table));
    RendersBlock(Signature([]));
    RendersWhole(BlockHtml(Signature([])), BlockText(Signature([])));
  }

  /** Blocks of a type the renderer does not know are left out. */
  function Known(blocks: seq<Block>): seq<Block> {
    if blocks == [] then []
    else
      var n := |blocks| - 1;
      Known(blocks[..n]) + if blocks[n].Unknown? then [] else [blocks[n]]
  }

  /** All other blocks are kept, in order. */
  lemma {:induction false} KnownMeaning(blocks: seq<Block>)
    ensures forall b :: b in Known(blocks) <==> b in blocks && b != Unknown
    decreases |blocks|
  {
    if blocks != [] {
      var n := |blocks| - 1;
      KnownMeaning(blocks[..n]);
      assert blocks == blocks[..n] + [blocks[n]];
    }
  }

  lemma {:induction false} KnownAppend(a: seq<Block>, b: seq<Block>)
    ensures Known(a + b) == Known(a) + Known(b)
    decreases |b|
  {
    if b == [] {
      assert a + b == a;
    } else {
      assert (a + b)[..|a + b| - 1] == a + b[..|b| - 1];
      KnownAppend(a, b[..|b| - 1]);
    }
  }

  /** The pieces one below the other. */
  function Lines(pieces: seq<string>): string {
    if pieces == [] then []
    else if |pieces| == 1 then pieces[0]
    else Lines(pieces[..|pieces| - 1]) + ['\n'] + pieces[|pieces| - 1]
  }

  /** In order, with a line break between any two. */
  lemma {:induction false} LinesAppend(a: seq<string>, b: seq<string>, piece: string)
    requires a != [] && b != []
    ensures Lines(a + b) == Lines(a) + "\n" + Lines(b) && Lines([piece]) == piece
    decreases |b|
  {
    var n := |b| - 1;
    assert (a + b)[..|a + b| - 1] == a + b[..n];
    if n == 0 {
      assert a + b[..0] == a;
    } else {
      LinesAppend(a, b[..n], piece);
    }
  }

  lemma {:induction false} RendersLines(pieces: seq<string>, texts: seq<string>)
    requires |pieces| == |texts| && forall i :: 0 <= i < |pieces| ==> Renders(pieces[i], texts[i])
    ensures Renders(Lines(pieces), Lines(texts))
    decreases |pieces|
  {
    hide Renders;
    if pieces == [] {
      RendersNothing();
    } else if |pieces| > 1 {
      var n := |pieces| - 1;
      RendersLines(pieces[..n], texts[..n]);
      RendersPlain('\n');
      RendersConcat(Lines(pieces[..n]), Lines(texts[..n]), ['\n'], ['\n']);
      RendersConcat(Lines(pieces[..n]) + ['\n'], Lines(texts[..n]) + ['\n'], pieces[n], texts[n]);
    }
  }

  function BlocksHtmlOf(blocks: seq<Block>): string {
    Lines(seq(|blocks|, i requires 0 <= i < |blocks| => BlockHtml(blocks[i])))
  }

  function BlocksText(blocks: seq<Block>): string {
    Lines(seq(|blocks|, i requires 0 <= i < |blocks| => BlockText(blocks[i])))
  }

  /** Whether rendering the block raises: an amount or a bar that is no number. */
  predicate BlockRaises(b: Block) {
    match b
    case BarChart(_, bars, _) => exists x <- bars :: AmountRaises(x.value)
    case Table(columns, rows, _, total, _) =>
      RowRaises(columns, total) || exists row <- rows :: RowRaises(columns, row)
    case _ => false
  }

  predicate RowRaises(columns: seq<Column>, row: seq<Value>) {
    exists i :: 0 <= i < Least(|columns|, |row|) && CellRaises(row[i], columns[i].kind)
  }

  /** A value that is shown but is no number. */
  predicate Unreadable(v: Value) {
    match v
    case Given(shown, None) => shown != []
    case _ => false
  }

  /** Somewhere the block needs a number and has none: in a bar, or in a rupee column of a row or of the total. */
  ghost predicate LacksNumber(b: Block) {
    match b
    case BarChart(_, bars, _) => exists bar <- bars :: Unreadable(bar.value)
    case Table(columns, rows, _, total, _) =>
      exists i :: 0 <= i < |columns| && columns[i].kind == Rupees
        && ((i < |total| && Unreadable(total[i])) || exists row <- rows :: i < |row| && Unreadable(row[i]))
    case _ => false
  }

  lemma RaisesMeaning(b: Block)
    ensures BlockRaises(b) <==> LacksNumber(b)
  {
    match b
    case BarChart(_, bars, _) =>
      assert forall x <- bars :: AmountRaises(x.value) == Unreadable(x.value);
    case Table(columns, rows, _, total, _) =>
      RowRaisesMeaning(columns, total);
      forall row | row in rows {
        RowRaisesMeaning(columns, row);
      }
      hide RowRaises, Unreadable;
    case _ =>
  }

  lemma RowRaisesMeaning(columns: seq<Column>, row: seq<Value>)
    ensures RowRaises(columns, row)
            <==> exists i :: 0 <= i < |columns| && columns[i].kind == Rupees && i < |row| && Unreadable(row[i])
  {
    assert forall i :: 0 <= i < Least(|columns|, |row|) ==>
             (CellRaises(row[i], columns[i].kind) <==> columns[i].kind == Rupees && Unreadable(row[i]));
  }

  datatype Error = NotANumber

  /** Renders the blocks; raises as soon as one does. */
  method BlocksHtml(blocks: seq<Block>) returns (r: Result<string, Error>)
    ensures r.Raised? <==> exists b <- blocks :: BlockRaises(b)
    ensures r.Raised? <==> exists b <- blocks :: LacksNumber(b)
    ensures r.Returned? ==> r.value == BlocksHtmlOf(Known(blocks))
  {
    var out: seq<Block> := [];
    var pieces: seq<string> := [];
    hide BlockHtml, BlockRaises, LacksNumber;
    forall b | b in blocks {
      RaisesMeaning(b);
    }
    for i := 0 to |blocks|
      invariant out == Known(blocks[..i]) && |pieces| == |out|
      invariant forall k :: 0 <= k < |out| ==> pieces[k] == BlockHtml(out[k])
      invariant forall k :: 0 <= k < i ==> !BlockRaises(blocks[k])
    {
      assert blocks[..i + 1][..i] == blocks[..i];
      if BlockRaises(blocks[i]) {
        assert blocks[i] in blocks;
        return Raised(NotANumber);
      }
      if !blocks[i].Unknown? {
        out := out + [blocks[i]];
        pieces := pieces + [BlockHtml(blocks[i])];
      }
    }
    assert blocks[..|blocks|] == blocks;
    assert pieces == seq(|out|, i requires 0 <= i < |out| => BlockHtml(out[i]));
    var text := JoinLines(pieces);
    r := Returned(text);
  }

  method JoinLines(pieces: seq<string>) returns (text: string)
    ensures text == Lines(pieces)
  {
    if pieces == [] {
      return [];
    }
    text := pieces[0];
    for i := 1 to |pieces|
      invariant text == Lines(pieces[..i])
    {
      assert pieces[..i + 1][..i] == pieces[..i];
      text := text + ['\n'] + pieces[i];
    }
    assert pieces[..|pieces|] == pieces;
  }

  /**
    For every list of blocks: the HTML is well nested with br as its only element without an
    end tag, and a reader sees exactly the texts of the blocks, in order.
  */
  lemma BlocksRender(blocks: seq<Block>)
    ensures Renders(BlocksHtmlOf(blocks), BlocksText(blocks))
    ensures Nest(BlocksHtmlOf(blocks), []) == Some([]) && TextOf(BlocksHtmlOf(blocks)) == BlocksText(blocks)
  {
    hide Renders, BlockHtml, BlockText, Lines, Nest, TextOf;
    forall i | 0 <= i < |blocks|
      ensures Renders(BlockHtml(blocks[i]), BlockText(blocks[i]))
    {
      RendersBlock(blocks[i]);
    }
    RendersLines(seq(|blocks|, i requires 0 <= i < |blocks| => BlockHtml(blocks[i])),
                 seq(|blocks|, i requires 0 <= i < |blocks| => BlockText(blocks[i])));
    RendersWhole(BlocksHtmlOf(blocks), BlocksText(blocks));
  }

  datatype Spec = Spec(title: string, subtitle: string, shop: string, shopLine: string, footer: string,
                       meta: seq<(string, string)>, blocks: seq<Block>)

  function HeaderHtml(s: Spec): string {
    Classed(HEADER, "top",
      Classed(DIV, "l", Classed(DIV, "shop", Escape(s.shop)) + Classed(DIV, "shopline", Escape(s.shopLine)))
      + Classed(DIV, "r", Classed(DIV, "doctitle", Escape(s.title)) + Classed(DIV, "subtitle", Escape(s.subtitle))))
  }

  function MetaHtml(meta: seq<(string, string)>): string {
    if meta == [] then [] else Tag(TABLE, " class=meta", PairsHtml(meta))
  }

  /** The body element of a document. */
  function PageHtml(s: Spec): string {
    Plainly(BODY, Classed(DIV, "foot", Escape(s.footer)) + HeaderHtml(s) + MetaHtml(s.meta)
                  + BlocksHtmlOf(Known(s.blocks)))
  }

  function PageText(s: Spec): string {
    s.footer + (s.shop + s.shopLine + (s.title + s.subtitle)) + PairsText(s.meta) + BlocksText(Known(s.blocks))
  }

  lemma RendersTwo(className: string, a: string, s: string, b: string, t: string)
    requires '>' !in className && '>' !in a && '>' !in b
    ensures Renders(Classed(DIV, className, Classed(DIV, a, Escape(s)) + Classed(DIV, b, Escape(t))), s + t)
  {
    hide Renders, Classed, Escape;
    RendersClassedCell(DIV, a, s);
    RendersClassedCell(DIV, b, t);
    RendersConcat(Classed(DIV, a, Escape(s)), s, Classed(DIV, b, Escape(t)), t);
    RendersClassed(DIV, className, Classed(DIV, a, Escape(s)) + Classed(DIV, b, Escape(t)), s + t);
  }

  lemma RendersHeader(s: Spec)
    ensures Renders(HeaderHtml(s), s.shop + s.shopLine + (s.title + s.subtitle))
  {
    var left := Classed(DIV, "l", Classed(DIV, "shop", Escape(s.shop)) + Classed(DIV, "shopline", Escape(s.shopLine)));
    var right := Classed(DIV, "r", Classed(DIV, "doctitle", Escape(s.title))
                                   + Classed(DIV, "subtitle", Escape(s.subtitle)));
    hide Renders, Classed, Escape;
    RendersTwo("l", "shop", s.shop, "shopline", s.shopLine);
    RendersTwo("r", "doctitle", s.title, "subtitle", s.subtitle);
    RendersConcat(left, s.shop + s.shopLine, right, s.title + s.subtitle);
    RendersClassed(HEADER, "top", left + right, s.shop + s.shopLine + (s.title + s.subtitle));
  }

  lemma RendersMeta(meta: seq<(string, string)>)
    ensures Renders(MetaHtml(meta), PairsText(meta))
  {
    assert Attributes(" class=meta") && (meta == [] ==> PairsText(meta) == []);
    hide Renders, PairsHtml, PairsText, Tag, TagName, Attributes;
    if meta == [] {
      RendersNothing();
    } else {
      NamesAreTags(TABLE);
      RendersPairs(meta);
      RendersTag(TABLE, " class=meta", PairsHtml(meta), PairsText(meta));
    }
  }

  /** The same of the whole body, header, foot and all. */
  lemma PageRenders(s: Spec)
    ensures Nest(PageHtml(s), []) == Some([]) && TextOf(PageHtml(s)) == PageText(s)
  {
    var foot, header, meta := Classed(DIV, "foot", Escape(s.footer)), HeaderHtml(s), MetaHtml(s.meta);
    var blocks := BlocksHtmlOf(Known(s.blocks));
    var top := s.shop + s.shopLine + (s.title + s.subtitle);
    hide Renders, Classed, Plainly, Escape, HeaderHtml, MetaHtml;
    hide BlocksHtmlOf, BlocksText, PairsText, Known, Nest, TextOf;
    RendersClassedCell(DIV, "foot", s.footer);
    RendersHeader(s);
    RendersMeta(s.meta);
    BlocksRender(Known(s.blocks));
    RendersConcat(foot, s.footer, header, top);
    RendersConcat(foot + header, s.footer + top, meta, PairsText(s.meta));
    RendersConcat(foot + header + meta, s.footer + top + PairsText(s.meta), blocks, BlocksText(Known(s.blocks)));
    RendersPlainly(BODY, foot + header + meta + blocks, PageText(s));
    RendersWhole(PageHtml(s), PageText(s));
  }
}
