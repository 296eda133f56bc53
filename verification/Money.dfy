/**
  Printing and reading Indian money (server/sandbox/munim_docs.py: inr;
  server/sandbox/munim_helpers.py: parse_amount).

  A printed amount is a whole number of units of the last shown digit. Text is a sequence
  of characters; numbers are exact reals.
*/
module Money {
  import opened Basics

  const RUPEE: char := '\U{20B9}'

  function Pow10(d: nat): (p: nat)
    ensures p > 0
  {
    if d == 0 then 1 else 10 * Pow10(d - 1)
  }

  /** What `units` of the last of `decimals` shown digits come to. */
  function Worth(units: int, decimals: nat): real {
    units as real / Pow10(decimals) as real
  }

  // ---------------------------------------------------------------- digits

  predicate IsDigit(c: char) {
    '0' <= c <= '9'
  }

  predicate AllDigits(s: string) {
    forall i :: 0 <= i < |s| ==> IsDigit(s[i])
  }

  function Digit(n: nat): (c: char)
    requires n < 10
    ensures IsDigit(c) && c as int - '0' as int == n
  {
    (n + '0' as int) as char
  }

  function Digits(n: nat): (s: string)
    ensures |s| > 0 && AllDigits(s)
  {
    if n < 10 then [Digit(n)] else Digits(n / 10) + [Digit(n % 10)]
  }

  /** Exactly `width` digits, with leading zeros. */
  function Padded(n: nat, width: nat): (s: string)
    ensures |s| == width && AllDigits(s)
  {
    if width == 0 then [] else Padded(n / 10, width - 1) + [Digit(n % 10)]
  }

  function Value(s: string): nat
    requires AllDigits(s)
  {
    if s == [] then 0 else Value(s[..|s| - 1]) * 10 + (s[|s| - 1] as int - '0' as int)
  }

  lemma ValueSnoc(s: string, c: char)
    requires AllDigits(s) && IsDigit(c)
    ensures AllDigits(s + [c]) && Value(s + [c]) == Value(s) * 10 + (c as int - '0' as int)
  {
    assert (s + [c])[..|s|] == s;
  }

  lemma {:induction false} ValueOfDigits(n: nat)
    ensures Value(Digits(n)) == n
    decreases n
  {
    if n < 10 {
      ValueSnoc([], Digit(n));
      assert [] + [Digit(n)] == [Digit(n)];
    } else {
      ValueOfDigits(n / 10);
      ValueSnoc(Digits(n / 10), Digit(n % 10));
    }
  }

  /** What is left of a number without its last digits. */
  function Leading(n: nat, digits: nat): nat {
    if digits == 0 then n else Leading(n / 10, digits - 1)
  }

  /** The padded digits are the last ones of the number. */
  lemma {:induction false} ValueOfPadded(n: nat, width: nat)
    ensures Leading(n, width) * Pow10(width) + Value(Padded(n, width)) == n
    decreases width
  {
    if width > 0 {
      var rest, last := n / 10, n % 10;
      ValueOfPadded(rest, width - 1);
      ValueSnoc(Padded(rest, width - 1), Digit(last));
      TimesTen(Leading(rest, width - 1), Pow10(width - 1));
    }
  }

  lemma TimesTen(a: nat, b: nat)
    ensures a * (10 * b) == 10 * (a * b)
  {
  }

  lemma {:induction false} ValueOfConcat(a: string, b: string)
    requires AllDigits(a) && AllDigits(b)
    ensures AllDigits(a + b) && Value(a + b) == Value(a) * Pow10(|b|) + Value(b)
    decreases |b|
  {
    if b == [] {
      assert a + b == a;
    } else {
      var n := |b| - 1;
      ValueOfConcat(a, b[..n]);
      assert a + b == (a + b[..n]) + [b[n]];
      ValueSnoc(a + b[..n], b[n]);
      TimesTen(Value(a), Pow10(n));
    }
  }

  // ---------------------------------------------------------------- printing

  /** The number of units of the last shown digit, halves away from zero. */
  function RoundHalfUp(value: real, decimals: nat): int {
    var scaled := value * Pow10(decimals) as real;
    if scaled >= 0.0 then (scaled + 0.5).Floor else -((0.5 - scaled).Floor)
  }

  /** A nearest number of units, and the one further from zero on a tie. */
  lemma RoundingMeaning(value: real, decimals: nat)
    ensures var scaled := value * Pow10(decimals) as real;
            var units := RoundHalfUp(value, decimals) as real;
            && (scaled >= 0.0 ==> units - 0.5 <= scaled < units + 0.5)
            && (scaled <= 0.0 ==> units - 0.5 < scaled <= units + 0.5)
  {
  }

  /** Groups of two digits, the first of one or two. */
  function Groups(head: string): seq<string> {
    if head == [] then []
    else if |head| <= 2 then [head]
    else Groups(head[..|head| - 2]) + [head[|head| - 2..]]
  }

  function LastThree(whole: string): nat {
    if |whole| < 3 then 0 else |whole| - 3
  }

  function Parts(whole: string): seq<string> {
    Groups(whole[..LastThree(whole)]) + [whole[LastThree(whole)..]]
  }

  function Join(parts: seq<string>): string
    requires parts != []
  {
    if |parts| == 1 then parts[0] else Join(parts[..|parts| - 1]) + [','] + parts[|parts| - 1]
  }

  function Flatten(parts: seq<string>): string {
    if parts == [] then [] else Flatten(parts[..|parts| - 1]) + parts[|parts| - 1]
  }

  function Magnitude(units: int): nat {
    if units < 0 then -units else units
  }

  function Sign(units: int): string {
    if units < 0 then ['-'] else []
  }

  function WholePart(units: int, decimals: nat): (s: string)
    ensures |s| > 0 && AllDigits(s)
  {
    Digits(Leading(Magnitude(units), decimals))
  }

  function FractionPart(units: int, decimals: nat): (s: string)
    ensures |s| == decimals && AllDigits(s)
  {
    Padded(Magnitude(units), decimals)
  }

  function Front(negative: bool, symbol: bool): string {
    (if negative then ['-'] else []) + (if symbol then [RUPEE] else [])
  }

  /** The printed number without its sign and symbol. */
  function Body(whole: string, frac: string): string
    requires whole != []
  {
    Join(Parts(whole)) + Tail(frac)
  }

  function Tail(frac: string): string {
    if frac == [] then [] else ['.'] + frac
  }

  /** Sign, symbol, grouped whole part and the digits after the point. */
  function Printed(units: int, decimals: nat, symbol: bool): string {
    Front(units < 0, symbol) + Body(WholePart(units, decimals), FractionPart(units, decimals))
  }

  lemma Concat4(a: string, b: string, c: string, d: string)
    ensures a + b + c + d == (a + b) + (c + d)
  {
  }

  method Inr(value: real, decimals: nat, symbol: bool) returns (text: string)
    ensures text == Printed(RoundHalfUp(value, decimals), decimals, symbol)
  {
    var q := RoundHalfUp(value, decimals);
    var whole, frac := WholePart(q, decimals), FractionPart(q, decimals);
    var cut := LastThree(whole);
    var head, tail := whole[..cut], whole[cut..];
    var groups: seq<string> := [];
    while |head| > 2
      invariant Groups(head) + groups == Groups(whole[..cut])
    {
      groups := [head[|head| - 2..]] + groups;
      head := head[..|head| - 2];
    }
    if head != [] {
      groups := [head] + groups;
    }
    assert groups == Groups(whole[..cut]);
    var body := JoinText(groups + [tail]);
    var sign, mark := if q < 0 then ['-'] else [], if symbol then [RUPEE] else [];
    var rest := if decimals > 0 then ['.'] + frac else [];
    text := sign + mark + body + rest;
    hide Groups, Join, WholePart, FractionPart;
    Concat4(sign, mark, body, rest);
  }

  method JoinText(parts: seq<string>) returns (text: string)
    requires parts != []
    ensures text == Join(parts)
  {
    text := parts[0];
    for i := 1 to |parts|
      invariant text == Join(parts[..i])
    {
      assert parts[..i + 1][..i] == parts[..i];
      text := text + [','] + parts[i];
    }
    assert parts[..|parts|] == parts;
  }

  /** A last part of up to three digits, before it parts of two, the first of which may be one. */
  ghost predicate Grouped(parts: seq<string>, whole: string) {
    && parts != [] && Flatten(parts) == whole
    && (|parts| == 1 ==> |parts[0]| <= 3)
    && (|parts| > 1 ==> |parts[|parts| - 1]| == 3 && 1 <= |parts[0]| <= 2)
    && (forall i :: 0 < i < |parts| - 1 ==> |parts[i]| == 2)
  }

  lemma FlattenSnoc(parts: seq<string>, p: string)
    ensures Flatten(parts + [p]) == Flatten(parts) + p
  {
    assert (parts + [p])[..|parts|] == parts;
  }

  lemma {:induction false} GroupsShape(head: string)
    ensures Flatten(Groups(head)) == head
    ensures head != [] ==> Groups(head) != [] && 1 <= |Groups(head)[0]| <= 2
    ensures forall i :: 0 < i < |Groups(head)| ==> |Groups(head)[i]| == 2
    ensures head == [] ==> Groups(head) == []
    decreases |head|
  {
    if head == [] {
    } else if |head| <= 2 {
      FlattenSnoc([], head);
      assert [] + [head] == [head];
    } else {
      GroupsShape(head[..|head| - 2]);
      FlattenSnoc(Groups(head[..|head| - 2]), head[|head| - 2..]);
      assert head[..|head| - 2] + head[|head| - 2..] == head;
    }
  }

  /** The printed whole part is grouped the Indian way. */
  lemma PartsAreGrouped(whole: string)
    ensures Grouped(Parts(whole), whole)
  {
    var cut := LastThree(whole);
    var groups, last := Groups(whole[..cut]), whole[cut..];
    hide Groups, Flatten;
    GroupsShape(whole[..cut]);
    FlattenSnoc(groups, last);
    assert whole[..cut] + last == whole;
  }

  /** There is only one Indian grouping of a digit string. */
  lemma GroupingIsUnique(p: seq<string>, q: seq<string>, whole: string)
    requires whole != [] && Grouped(p, whole) && Grouped(q, whole)
    ensures p == q
  {
    LengthOfParts(p, whole);
    LengthOfParts(q, whole);
    if |p| > 1 {
      var n := |p| - 1;
      LastThreeApart(p, whole);
      LastThreeApart(q, whole);
      hide Flatten, Grouped;
      TwosAreUnique(p[..n], q[..n]);
      assert p == p[..n] + [p[n]] && q == q[..n] + [q[n]];
    } else {
      Single(p);
      Single(q);
    }
  }

  lemma LastThreeApart(p: seq<string>, whole: string)
    requires Grouped(p, whole) && |p| > 1
    ensures var n := |p| - 1;
            && |whole| >= 3 && p[n] == whole[|whole| - 3..] && Flatten(p[..n]) == whole[..|whole| - 3]
            && (forall i :: 0 < i < n ==> |p[..n][i]| == 2)
  {
    var n := |p| - 1;
    var front, last := Flatten(p[..n]), p[n];
    assert whole == front + last;
    hide Flatten;
    ApartAt(front, last);
  }

  lemma ApartAt(a: string, b: string)
    ensures (a + b)[..|a + b| - |b|] == a && (a + b)[|a + b| - |b|..] == b
  {
  }

  lemma Single(p: seq<string>)
    requires |p| == 1
    ensures Flatten(p) == p[0]
  {
    assert p[..0] == [];
    assert Flatten(p) == Flatten(p[..0]) + p[0];
  }

  lemma LengthOfParts(p: seq<string>, whole: string)
    requires Grouped(p, whole)
    ensures |p| == 1 ==> |whole| <= 3
    ensures |p| > 1 ==> |whole| == 3 + |p[0]| + 2 * (|p| - 2) && |whole| > 3
  {
    var n := |p| - 1;
    if n == 0 {
      Single(p);
    } else {
      assert Flatten(p) == Flatten(p[..n]) + p[n];
      LengthOfTwos(p[..n]);
    }
  }

  lemma {:induction false} LengthOfTwos(p: seq<string>)
    requires p != [] && forall i :: 0 < i < |p| ==> |p[i]| == 2
    ensures |Flatten(p)| == |p[0]| + 2 * (|p| - 1)
    decreases |p|
  {
    var n := |p| - 1;
    if n == 0 {
      assert p[..0] == [];
    } else {
      LengthOfTwos(p[..n]);
    }
  }

  lemma {:induction false} TwosAreUnique(p: seq<string>, q: seq<string>)
    requires p != [] && |p| == |q| && Flatten(p) == Flatten(q)
    requires forall i :: 0 < i < |p| ==> |p[i]| == 2 && |q[i]| == 2
    ensures p == q
    decreases |p|
  {
    var n := |p| - 1;
    assert Flatten(p) == Flatten(p[..n]) + p[n] && Flatten(q) == Flatten(q[..n]) + q[n];
    if n == 0 {
      Single(p);
      Single(q);
      assert p == [p[0]] && q == [q[0]];
    } else {
      LengthOfTwos(p);
      LengthOfTwos(q);
      assert Flatten(p)[|Flatten(p)| - 2..] == p[n] && Flatten(q)[|Flatten(q)| - 2..] == q[n];
      assert Flatten(p)[..|Flatten(p)| - 2] == Flatten(p[..n]) && Flatten(q)[..|Flatten(q)| - 2] == Flatten(q[..n]);
      TwosAreUnique(p[..n], q[..n]);
      assert p == p[..n] + [p[n]] && q == q[..n] + [q[n]];
    }
  }

  // ---------------------------------------------------------------- what is printed

  /** The pieces of a text between its commas. */
  function AtCommas(s: string): seq<string> {
    if s == [] then [[]]
    else
      var before, c := AtCommas(s[..|s| - 1]), s[|s| - 1];
      if c == ',' then before + [[]]
      else if before == [] then [[c]]
      else before[..|before| - 1] + [before[|before| - 1] + [c]]
  }

  lemma AtCommasSnoc(s: string, c: char)
    ensures AtCommas(s + [c])
            == if c == ',' then AtCommas(s) + [[]]
               else if AtCommas(s) == [] then [[c]]
               else AtCommas(s)[..|AtCommas(s)| - 1] + [AtCommas(s)[|AtCommas(s)| - 1] + [c]]
  {
    assert (s + [c])[..|s|] == s;
  }

  lemma {:induction false} AtCommasDigits(s: string, parts: seq<string>, p: string)
    requires AtCommas(s) == parts + [[]] && AllDigits(p)
    ensures AtCommas(s + p) == parts + [p]
    decreases |p|
  {
    if p == [] {
      assert s + p == s;
    } else {
      var n := |p| - 1;
      AtCommasDigits(s, parts, p[..n]);
      AtCommasSnoc(s + p[..n], p[n]);
      assert s + p == s + p[..n] + [p[n]] && p[..n] + [p[n]] == p;
      assert (parts + [p[..n]])[..|parts|] == parts;
    }
  }

  /** Between the commas of joined digits stand the parts. */
  lemma {:induction false} AtCommasOfJoin(parts: seq<string>)
    requires parts != [] && forall i :: 0 <= i < |parts| ==> AllDigits(parts[i])
    ensures AtCommas(Join(parts)) == parts
    decreases |parts|
  {
    var n := |parts| - 1;
    assert parts == parts[..n] + [parts[n]];
    if n == 0 {
      assert AtCommas([]) == [] + [[]] && [] + parts[0] == parts[0];
      AtCommasDigits([], [], parts[0]);
    } else {
      AtCommasOfJoin(parts[..n]);
      AtCommasSnoc(Join(parts[..n]), ',');
      AtCommasDigits(Join(parts[..n]) + [','], parts[..n], parts[n]);
    }
  }

  lemma {:induction false} NoLeadingZero(n: nat)
    ensures Digits(n)[0] == '0' ==> n == 0
    decreases n
  {
    if n >= 10 {
      NoLeadingZero(n / 10);
    }
  }

  /**
    How an amount is laid out: a minus sign when it is negative, then the symbol if asked for,
    then the whole digits in Indian groups between commas, without a needless zero in front,
    then a point and exactly `decimals` digits, or neither.
  */
  lemma PrintedLayout(units: int, decimals: nat, symbol: bool) returns (whole: string, frac: string)
    ensures AllDigits(whole) && AllDigits(frac) && |frac| == decimals && whole != []
    ensures whole[0] == '0' ==> whole == ['0']
    ensures Value(whole) * Pow10(decimals) + Value(frac) == if units < 0 then -units else units
    ensures var t := Printed(units, decimals, symbol);
            var front := (if units < 0 then 1 else 0) + (if symbol then 1 else 0);
            var tail := if decimals > 0 then decimals + 1 else 0;
            && |t| > front + tail
            && (units < 0 ==> t[0] == '-') && (symbol ==> t[front - 1] == RUPEE)
            && Grouped(AtCommas(t[front..|t| - tail]), whole)
            && (decimals > 0 ==> t[|t| - tail] == '.' && t[|t| - decimals..] == frac)
  {
    whole, frac := WholePart(units, decimals), FractionPart(units, decimals);
    NoNeedlessZero(units, decimals);
    PrintedValue(units, decimals);
    hide Grouped, Value, AtCommas, Front, Body, WholePart, FractionPart, Pow10, AllDigits;
    LaidOut(units < 0, symbol, whole, frac);
  }

  lemma NoNeedlessZero(units: int, decimals: nat)
    ensures WholePart(units, decimals)[0] == '0' ==> WholePart(units, decimals) == ['0']
  {
    NoLeadingZero(Leading(Magnitude(units), decimals));
  }

  lemma LaidOut(negative: bool, symbol: bool, whole: string, frac: string)
    requires whole != [] && AllDigits(whole)
    ensures var t := Front(negative, symbol) + Body(whole, frac);
            var front := (if negative then 1 else 0) + (if symbol then 1 else 0);
            var tail := if |frac| > 0 then |frac| + 1 else 0;
            && |t| > front + tail
            && (negative ==> t[0] == '-') && (symbol ==> t[front - 1] == RUPEE)
            && Grouped(AtCommas(t[front..|t| - tail]), whole)
            && (|frac| > 0 ==> t[|t| - tail] == '.' && t[|t| - |frac|..] == frac)
  {
    hide *;
    PartsAreGrouped(whole);
    PartsAreDigits(whole);
    AtCommasOfJoin(Parts(whole));
    JoinIsNotEmpty(whole);
    FrontIs(negative, symbol);
    TailIs(frac);
    Assembled(Front(negative, symbol), Join(Parts(whole)), Tail(frac), frac, negative, symbol);
    BodyIs(whole, frac);
  }

  lemma BodyIs(whole: string, frac: string)
    requires whole != []
    ensures Body(whole, frac) == Join(Parts(whole)) + Tail(frac)
  {
  }

  lemma Assembled(front: string, joined: string, tail: string, frac: string, negative: bool, symbol: bool)
    requires |front| == (if negative then 1 else 0) + (if symbol then 1 else 0) && joined != []
    requires (negative ==> front[0] == '-') && (symbol ==> front[|front| - 1] == RUPEE)
    requires tail == if |frac| > 0 then ['.'] + frac else []
    ensures var t := front + (joined + tail);
            && |t| > |front| + |tail| && t[|front|..|t| - |tail|] == joined
            && (negative ==> t[0] == '-') && (symbol ==> t[|front| - 1] == RUPEE)
            && (|frac| > 0 ==> t[|t| - |tail|] == '.' && t[|t| - |frac|..] == frac)
  {
    Layout(front, joined, tail);
    if |frac| > 0 {
      EndOf(front + (joined + tail), tail, frac);
    }
  }

  lemma FrontIs(negative: bool, symbol: bool)
    ensures var f := Front(negative, symbol);
            && |f| == (if negative then 1 else 0) + (if symbol then 1 else 0)
            && (negative ==> f[0] == '-') && (symbol ==> f[|f| - 1] == RUPEE)
  {
  }

  lemma TailIs(frac: string)
    ensures Tail(frac) == if |frac| > 0 then ['.'] + frac else []
  {
  }

  lemma EndOf(t: string, tail: string, frac: string)
    requires |tail| <= |t| && t[|t| - |tail|..] == tail && tail == ['.'] + frac
    ensures t[|t| - |tail|] == '.' && t[|t| - |frac|..] == frac
  {
    assert t[|t| - |tail|..][0] == '.' && t[|t| - |tail|..][1..] == frac;
  }

  lemma Layout(a: string, b: string, c: string)
    ensures var t := a + (b + c);
            && t[..|a|] == a && t[|a|..|t| - |c|] == b && t[|t| - |c|..] == c
            && (forall i :: 0 <= i < |a| ==> t[i] == a[i])
  {
    var t := a + (b + c);
    assert t[|a|..|t| - |c|] == b;
  }

  lemma PartsAreDigits(whole: string)
    requires whole != [] && AllDigits(whole)
    ensures Parts(whole) != [] && forall i :: 0 <= i < |Parts(whole)| ==> AllDigits(Parts(whole)[i])
  {
    PartsAreGrouped(whole);
    hide Parts, AllDigits;
    FlattenDigits(Parts(whole));
  }

  lemma JoinIsNotEmpty(whole: string)
    requires whole != [] && AllDigits(whole)
    ensures Join(Parts(whole)) != []
  {
    GroupedWhole(whole);
  }

  // ---------------------------------------------------------------- reading

  /** str.isspace, which is also what \s matches. */
  predicate IsSpace(c: char) {
    var n := c as int;
    || 9 <= n <= 13 || 28 <= n <= 32 || n == 0x85 || n == 0xA0 || n == 0x1680 || 0x2000 <= n <= 0x200A
    || n == 0x2028 || n == 0x2029 || n == 0x202F || n == 0x205F || n == 0x3000
  }

  /** Word characters up to the end of ASCII. */
  predicate IsWord(c: char) {
    IsDigit(c) || 'a' <= c <= 'z' || 'A' <= c <= 'Z' || c == '_'
  }

  /** Whether a character matches a lower-case letter when case is ignored. */
  predicate Folds(c: char, lower: char) {
    || c == lower
    || ('a' <= lower <= 'z' && 'A' <= c <= 'Z' && c as int + 32 == lower as int)
    || (lower == 's' && c == '\U{017F}')
    || (lower == 'i' && (c == '\U{0130}' || c == '\U{0131}'))
  }

  function StripLeft(s: string): string {
    if s != [] && IsSpace(s[0]) then StripLeft(s[1..]) else s
  }

  function StripRight(s: string): string {
    if s != [] && IsSpace(s[|s| - 1]) then StripRight(s[..|s| - 1]) else s
  }

  function Strip(s: string): string {
    StripRight(StripLeft(s))
  }

  /** The texts that stand for no amount. */
  predicate Nothing(t: string) {
    t == [] || t == ['-'] || t == ['-', '-']
    || t == ['n', 'i', 'l'] || t == ['N', 'i', 'l'] || t == ['N', 'I', 'L']
  }

  predicate Boundary(t: string, i: nat)
    requires i <= |t|
  {
    i == 0 || !IsWord(t[i - 1])
  }

  /** At i stands one of two letters and an r, then perhaps a dot, then the end. */
  predicate FinalMark(t: string, i: nat, first: char) {
    && i + 2 <= |t| && Folds(t[i], first) && Folds(t[i + 1], 'r')
    && (i + 2 == |t| || (i + 3 == |t| && t[i + 2] == '.'))
  }

  /** The text ends with cr, or cr and a dot, as a word of its own. */
  predicate EndsWithCr(t: string) {
    exists i: nat :: i < |t| && FinalMark(t, i, 'c') && Boundary(t, i)
  }

  predicate Removable(c: char) {
    c == RUPEE || c == ',' || c == '(' || c == ')' || IsSpace(c)
  }

  /** How many characters the cleaning pattern matches at i. */
  function MatchAt(t: string, i: nat): (m: nat)
    requires i < |t|
    ensures i + m <= |t|
  {
    if i + 2 <= |t| && Folds(t[i], 'r') && Folds(t[i + 1], 's') then
      if i + 2 < |t| && t[i + 2] == '.' then 3 else 2
    else if i + 3 <= |t| && Folds(t[i], 'i') && Folds(t[i + 1], 'n') && Folds(t[i + 2], 'r') then 3
    else if t[i] == RUPEE then 1
    else if Boundary(t, i) && (FinalMark(t, i, 'd') || FinalMark(t, i, 'c')) then |t| - i
    else if Removable(t[i]) then 1
    else 0
  }

  /** The text from i on with every match of the cleaning pattern removed. */
  function Scrub(t: string, i: nat): string
    decreases |t| - i
  {
    if i >= |t| then []
    else if MatchAt(t, i) > 0 then Scrub(t, i + MatchAt(t, i))
    else [t[i]] + Scrub(t, i + 1)
  }

  function Point(s: string): (i: nat)
    ensures i <= |s| && (i < |s| ==> s[i] == '.')
    ensures forall k :: 0 <= k < i ==> s[k] != '.'
  {
    if s == [] || s[0] == '.' then 0 else 1 + Point(s[1..])
  }

  /** The digits before and after a point, as units of the last of them. */
  function Scaled(before: string, after: string): nat
    requires AllDigits(before) && AllDigits(after)
  {
    Value(before) * Pow10(|after|) + Value(after)
  }

  /** A plain decimal without a sign: digits, perhaps with a point among them. */
  function Decimal(s: string): Option<real> {
    var i := Point(s);
    var before, after := s[..i], if i < |s| then s[i + 1..] else [];
    if AllDigits(before) && AllDigits(after) && |before| + |after| > 0 then
      Some(Worth(Scaled(before, after), |after|))
    else None
  }

  function ReadNumber(s: string): Option<real> {
    if s != [] && (s[0] == '-' || s[0] == '+') then
      match Decimal(s[1..])
      case None => None
      case Some(x) => Some(if s[0] == '-' then -x else x)
    else Decimal(s)
  }

  function Abs(x: real): real {
    if x >= 0.0 then x else -x
  }

  function ParseAmount(s: string): Option<real> {
    var t := Strip(s);
    if Nothing(t) then None
    else
      var negative := t[0] == '(' && t[|t| - 1] == ')';
      match ReadNumber(Scrub(t, 0))
      case None => None
      case Some(n) => Some(if negative || EndsWithCr(t) then -Abs(n) else n)
  }

  // ---------------------------------------------------------------- what cleaning does

  /** Characters no letter of the cleaning pattern can start at. */
  predicate Simple(c: char) {
    IsDigit(c) || c == '.' || c == '-' || c == '+' || c == ',' || c == RUPEE || c == '(' || c == ')' || IsSpace(c)
  }

  predicate AllSimple(s: string) {
    forall i :: 0 <= i < |s| ==> Simple(s[i])
  }

  function Clean(s: string): string {
    if s == [] then []
    else if Removable(s[0]) then Clean(s[1..])
    else [s[0]] + Clean(s[1..])
  }

  lemma SimpleMatch(t: string, i: nat)
    requires i < |t| && Simple(t[i])
    ensures MatchAt(t, i) == if Removable(t[i]) then 1 else 0
  {
  }

  /** On a stretch without letters cleaning removes characters one by one. */
  lemma {:induction false} ScrubSimple(t: string, i: nat, j: nat)
    requires i <= j <= |t| && AllSimple(t[i..j])
    ensures Scrub(t, i) == Clean(t[i..j]) + Scrub(t, j)
    decreases j - i
  {
    hide Simple, MatchAt, Removable;
    if i < j {
      assert Simple(t[i..j][0]);
      assert t[i..j][1..] == t[i + 1..j];
      SimpleMatch(t, i);
      ScrubSimple(t, i + 1, j);
    }
  }

  lemma SimpleConcat(a: string, b: string)
    requires AllSimple(a) && AllSimple(b)
    ensures AllSimple(a + b)
  {
  }

  lemma {:induction false} CleanConcat(a: string, b: string)
    ensures Clean(a + b) == Clean(a) + Clean(b)
    decreases |a|
  {
    hide Removable;
    if a == [] {
      assert a + b == b;
    } else {
      assert (a + b)[1..] == a[1..] + b;
      CleanConcat(a[1..], b);
    }
  }

  lemma {:induction false} CleanDigits(s: string)
    requires AllDigits(s)
    ensures Clean(s) == s && AllSimple(s)
    decreases |s|
  {
    if s != [] {
      CleanDigits(s[1..]);
      assert s == [s[0]] + s[1..];
    }
  }

  lemma CleanOne(c: char)
    requires Simple(c)
    ensures AllSimple([c]) && Clean([c]) == if Removable(c) then [] else [c]
  {
    assert [c][1..] == [];
  }

  /** Text without letters: what survives the cleaning of it. */
  ghost predicate Cleans(text: string, kept: string) {
    AllSimple(text) && Clean(text) == kept
  }

  lemma CleansConcat(a: string, a': string, b: string, b': string)
    requires Cleans(a, a') && Cleans(b, b')
    ensures Cleans(a + b, a' + b')
  {
    hide AllSimple, Clean;
    SimpleConcat(a, b);
    CleanConcat(a, b);
  }

  /** Removing the commas of grouped digits gives the digits back. */
  lemma {:induction false} CleanJoin(parts: seq<string>)
    requires parts != [] && forall i :: 0 <= i < |parts| ==> AllDigits(parts[i])
    ensures Cleans(Join(parts), Flatten(parts))
    decreases |parts|
  {
    hide AllSimple, Clean, AllDigits;
    var n := |parts| - 1;
    CleanDigits(parts[n]);
    if n == 0 {
      Single(parts);
    } else {
      CleanJoin(parts[..n]);
      CleanOne(',');
      CleansConcat(Join(parts[..n]), Flatten(parts[..n]), [','], []);
      CleansConcat(Join(parts[..n]) + [','], Flatten(parts[..n]) + [], parts[n], parts[n]);
      assert Flatten(parts[..n]) + [] == Flatten(parts[..n]);
    }
  }

  lemma {:induction false} FlattenDigits(parts: seq<string>)
    requires AllDigits(Flatten(parts))
    ensures forall i :: 0 <= i < |parts| ==> AllDigits(parts[i])
    decreases |parts|
  {
    if parts != [] {
      var n := |parts| - 1;
      SplitDigits(Flatten(parts[..n]), parts[n]);
      hide AllDigits;
      FlattenDigits(parts[..n]);
      assert forall i :: 0 <= i < n ==> parts[..n][i] == parts[i];
    }
  }

  lemma SplitDigits(a: string, b: string)
    requires AllDigits(a + b)
    ensures AllDigits(a) && AllDigits(b)
  {
    assert forall k :: 0 <= k < |a| ==> a[k] == (a + b)[k];
    assert forall k :: 0 <= k < |b| ==> b[k] == (a + b)[|a| + k];
  }

  lemma {:induction false} JoinEnds(parts: seq<string>)
    requires parts != [] && forall i :: 0 <= i < |parts| ==> AllDigits(parts[i]) && parts[i] != []
    ensures var s := Join(parts); s != [] && IsDigit(s[0]) && IsDigit(s[|s| - 1])
    decreases |parts|
  {
    if |parts| > 1 {
      JoinEnds(parts[..|parts| - 1]);
    }
  }

  /** The grouped whole part cleans to its digits, and begins and ends with one. */
  lemma GroupedWhole(whole: string)
    requires whole != [] && AllDigits(whole)
    ensures var s := Join(Parts(whole)); Cleans(s, whole) && s != [] && IsDigit(s[0]) && IsDigit(s[|s| - 1])
  {
    var parts := Parts(whole);
    hide Parts, Cleans, Join, AllDigits, Flatten;
    PartsAreGrouped(whole);
    FlattenDigits(parts);
    CleanJoin(parts);
    LengthOfParts(parts, whole);
    if |parts| == 1 {
      Single(parts);
    }
    JoinEnds(parts);
  }

  lemma BodyCleans(whole: string, frac: string)
    requires whole != [] && AllDigits(whole) && AllDigits(frac)
    ensures var s := Body(whole, frac);
            Cleans(s, whole + Tail(frac)) && s != [] && IsDigit(s[0]) && IsDigit(s[|s| - 1])
  {
    var grouped := Join(Parts(whole));
    hide Parts, Join;
    GroupedWhole(whole);
    if frac == [] {
      assert grouped + [] == grouped && whole + [] == whole;
    } else {
      TailCleans(frac);
      CleansConcat(grouped, whole, Tail(frac), Tail(frac));
      assert (grouped + Tail(frac))[0] == grouped[0];
      assert (grouped + Tail(frac))[|grouped| + |frac|] == frac[|frac| - 1];
    }
  }

  lemma TailCleans(frac: string)
    requires AllDigits(frac) && frac != []
    ensures Cleans(Tail(frac), Tail(frac))
  {
    CleanDigits(frac);
    CleanOne('.');
    hide Clean, AllSimple;
    CleansConcat(['.'], ['.'], frac, frac);
  }

  lemma FrontCleans(negative: bool, symbol: bool)
    ensures Cleans(Front(negative, symbol), if negative then ['-'] else [])
  {
    CleanOne('-');
    CleanOne(RUPEE);
    CleanConcat(['-'], [RUPEE]);
    assert ['-'] + [] == ['-'] && [] + [RUPEE] == [RUPEE];
  }

  // ---------------------------------------------------------------- reading numbers back

  lemma {:induction false} PointAfterDigits(a: string, b: string)
    requires AllDigits(a)
    ensures Point(a + Tail(b)) == |a|
  {
    var s := a + Tail(b);
    assert forall k :: 0 <= k < |a| ==> s[k] == a[k];
    assert |s| > |a| ==> s[|a|] == '.';
  }

  lemma DecimalOf(whole: string, frac: string)
    requires whole != [] && AllDigits(whole) && AllDigits(frac)
    ensures Decimal(whole + Tail(frac))
            == Some(Worth(Scaled(whole, frac), |frac|))
  {
    var s := whole + Tail(frac);
    hide Scaled, Worth, Point;
    PointAfterDigits(whole, frac);
    assert s[..|whole|] == whole;
    assert (if |whole| < |s| then s[|whole| + 1..] else []) == frac;
  }

  /** The number inside a printed amount, without symbol and commas. */
  function Bare(negative: bool, whole: string, frac: string): string {
    (if negative then ['-'] else []) + (whole + Tail(frac))
  }

  function Signed(negative: bool, x: real): real {
    if negative then -x else x
  }

  lemma ReadSigned(body: string, x: real)
    requires body != [] && IsDigit(body[0]) && Decimal(body) == Some(x)
    ensures ReadNumber(body) == Some(x) && ReadNumber(['-'] + body) == Some(-x)
  {
    hide Decimal;
    assert (['-'] + body)[1..] == body;
  }

  lemma NothingBefore(s: string)
    ensures [] + s == s
  {
  }

  lemma FirstOfConcat(a: string, b: string)
    requires a != [] && AllDigits(a)
    ensures a + b != [] && IsDigit((a + b)[0])
  {
    assert (a + b)[0] == a[0];
  }

  lemma ReadOf(negative: bool, whole: string, frac: string)
    requires whole != [] && AllDigits(whole) && AllDigits(frac)
    ensures ReadNumber(Bare(negative, whole, frac)) == Some(Signed(negative, Worth(Scaled(whole, frac), |frac|)))
  {
    var s, x := whole + Tail(frac), Worth(Scaled(whole, frac), |frac|);
    FirstOfConcat(whole, Tail(frac));
    hide Decimal, Scaled, Worth, Tail, ReadNumber, AllDigits, IsDigit;
    DecimalOf(whole, frac);
    ReadSigned(s, x);
    if !negative {
      NothingBefore(s);
    }
  }

  lemma PrintedValue(units: int, decimals: nat)
    ensures var whole, frac := WholePart(units, decimals), FractionPart(units, decimals);
            Scaled(whole, frac) == Magnitude(units)
  {
    ValueOfDigits(Leading(Magnitude(units), decimals));
    ValueOfPadded(Magnitude(units), decimals);
  }

  lemma SignedMagnitude(units: int, decimals: nat)
    ensures Signed(units < 0, Worth(Magnitude(units), decimals)) == Worth(units, decimals)
  {
    if units < 0 {
      MinusOver(Magnitude(units) as real, Pow10(decimals) as real);
      assert units as real == -(Magnitude(units) as real);
    }
  }

  lemma MinusOver(a: real, p: real)
    requires p > 0.0
    ensures (-a) / p == -(a / p)
  {
    var q := a / p;
    assert (-q) * p == -a;
  }

  /** Text without letters or brackets, ending in a digit, whose cleaned form reads as x. */
  ghost predicate Amount(text: string, x: real) {
    && text != [] && AllSimple(text) && ReadNumber(Clean(text)) == Some(x)
    && IsDigit(text[|text| - 1]) && text[0] != '(' && text[0] != '.' && !IsSpace(text[0])
  }

  lemma FrontBodyCleans(negative: bool, symbol: bool, whole: string, frac: string)
    requires whole != [] && AllDigits(whole) && AllDigits(frac)
    ensures Cleans(Front(negative, symbol) + Body(whole, frac), Bare(negative, whole, frac))
  {
    hide Front, Body, Cleans, AllDigits;
    BodyCleans(whole, frac);
    FrontCleans(negative, symbol);
    CleansConcat(Front(negative, symbol), if negative then ['-'] else [], Body(whole, frac), whole + Tail(frac));
  }

  lemma FrontBodyEnds(negative: bool, symbol: bool, whole: string, frac: string)
    requires whole != [] && AllDigits(whole) && AllDigits(frac)
    ensures var s := Front(negative, symbol) + Body(whole, frac);
            s != [] && IsDigit(s[|s| - 1]) && s[0] != '(' && s[0] != '.' && !IsSpace(s[0])
  {
    FrontEnds(negative, symbol);
    hide Front, Body, Cleans, AllDigits, IsSpace;
    BodyCleans(whole, frac);
    DigitStarts(Body(whole, frac)[0]);
    ConcatEnds(Front(negative, symbol), Body(whole, frac));
  }

  lemma PrintedIsAmount(units: int, decimals: nat, symbol: bool)
    ensures Amount(Printed(units, decimals, symbol), Worth(units, decimals))
  {
    var whole, frac := WholePart(units, decimals), FractionPart(units, decimals);
    hide Body, WholePart, FractionPart, Scaled, Worth, Signed, Magnitude, Bare;
    hide AllSimple, Clean, ReadNumber, AllDigits, Front, IsSpace, IsDigit;
    PrintedValue(units, decimals);
    SignedMagnitude(units, decimals);
    FrontBodyCleans(units < 0, symbol, whole, frac);
    FrontBodyEnds(units < 0, symbol, whole, frac);
    ReadOf(units < 0, whole, frac);
  }

  lemma ConcatEnds(a: string, b: string)
    requires b != []
    ensures (a + b)[|a + b| - 1] == b[|b| - 1]
    ensures (a + b)[0] == if a == [] then b[0] else a[0]
  {
  }

  lemma FrontEnds(negative: bool, symbol: bool)
    ensures var f := Front(negative, symbol); f != [] ==> f[0] != '(' && f[0] != '.' && !IsSpace(f[0])
  {
  }

  lemma DigitStarts(c: char)
    requires IsDigit(c)
    ensures c != '(' && c != ')' && c != '.' && !IsSpace(c)
  {
  }

  // ---------------------------------------------------------------- the round trip

  lemma {:induction false} StripKeeps(t: string)
    requires t != [] && !IsSpace(t[0]) && !IsSpace(t[|t| - 1])
    ensures Strip(t) == t
  {
  }

  lemma DigitIsSomething(t: string, i: nat)
    requires i < |t| && IsDigit(t[i])
    ensures !Nothing(t)
  {
  }

  lemma ScrubWhole(t: string)
    requires AllSimple(t)
    ensures Scrub(t, 0) == Clean(t)
  {
    hide AllSimple, Clean;
    assert t[0..|t|] == t;
    ScrubSimple(t, 0, |t|);
    assert Clean(t) + [] == Clean(t);
  }

  lemma NoLettersNoMark(t: string)
    requires AllSimple(t)
    ensures !EndsWithCr(t)
  {
  }

  lemma ParseOf(t: string, digit: nat, n: real)
    requires digit < |t| && IsDigit(t[digit]) && !IsSpace(t[0]) && !IsSpace(t[|t| - 1])
    requires ReadNumber(Scrub(t, 0)) == Some(n)
    ensures ParseAmount(t) == Some(if (t[0] == '(' && t[|t| - 1] == ')') || EndsWithCr(t) then -Abs(n) else n)
  {
    hide Strip, Nothing, Scrub, ReadNumber, EndsWithCr, IsSpace, IsDigit, Abs;
    StripKeeps(t);
    DigitIsSomething(t, digit);
  }

  /**
    Printing then reading is the identity on rounded money, with any number of decimals,
    with or without the symbol.
  */
  lemma PrintThenParse(value: real, decimals: nat, symbol: bool)
    ensures var units := RoundHalfUp(value, decimals);
            ParseAmount(Printed(units, decimals, symbol)) == Some(Worth(units, decimals))
  {
    var units := RoundHalfUp(value, decimals);
    var t := Printed(units, decimals, symbol);
    var x := Worth(units, decimals);
    hide RoundHalfUp, Worth, Printed, Amount, ParseAmount, IsMark, Abs;
    PrintedIsAmount(units, decimals, symbol);
    AmountReads(t, x);
  }

  /** An amount in whole units of the last shown digit is not changed by rounding. */
  lemma WholeUnitsStay(units: int, decimals: nat)
    ensures RoundHalfUp(Worth(units, decimals), decimals) == units
  {
    var p := Pow10(decimals) as real;
    assert units as real / p * p == units as real;
  }

  /** So an amount of whole paise, printed and read back, is the same amount. */
  lemma PaiseComeBack(paise: int, symbol: bool)
    ensures ParseAmount(Printed(RoundHalfUp(Worth(paise, 2), 2), 2, symbol)) == Some(Worth(paise, 2))
  {
    WholeUnitsStay(paise, 2);
    hide RoundHalfUp, Printed, ParseAmount, Worth;
    PrintThenParse(Worth(paise, 2), 2, symbol);
  }

  lemma AmountReads(t: string, x: real)
    requires Amount(t, x)
    ensures ParseAmount(t) == Some(x)
  {
    ScrubWhole(t);
    NoLettersNoMark(t);
    DigitStarts(t[|t| - 1]);
    hide ReadNumber, AllSimple, Clean, Scrub, EndsWithCr, ParseAmount, IsSpace;
    ParseOf(t, |t| - 1, x);
  }

  /** dr or cr in small or capital letters, perhaps with a dot. */
  predicate IsMark(mark: string, first: char) {
    && 2 <= |mark| <= 3 && (if first == 'c' then mark[0] in ['c', 'C'] else mark[0] in ['d', 'D'])
    && mark[1] in ['r', 'R'] && (|mark| == 3 ==> mark[2] == '.')
  }

  /** A debit mark after the amount changes nothing, a credit mark makes it minus its magnitude. */
  lemma PrintThenParseMarked(value: real, decimals: nat, symbol: bool, mark: string)
    requires IsMark(mark, 'd') || IsMark(mark, 'c')
    ensures var units := RoundHalfUp(value, decimals);
            var x := Worth(units, decimals);
            ParseAmount(Printed(units, decimals, symbol) + [' '] + mark)
            == Some(if IsMark(mark, 'c') then -Abs(x) else x)
  {
    var units := RoundHalfUp(value, decimals);
    var t := Printed(units, decimals, symbol);
    var x := Worth(units, decimals);
    hide RoundHalfUp, Worth, Printed, Amount, ParseAmount, IsMark, Abs;
    PrintedIsAmount(units, decimals, symbol);
    MarkedReads(t, x, mark);
  }

  lemma MarkedReads(text: string, x: real, mark: string)
    requires Amount(text, x) && (IsMark(mark, 'd') || IsMark(mark, 'c'))
    ensures ParseAmount(text + [' '] + mark) == Some(if IsMark(mark, 'c') then -Abs(x) else x)
  {
    var t := text + [' '] + mark;
    hide ReadNumber, AllSimple, Clean, Scrub, EndsWithCr, ParseAmount, IsMark, IsSpace, IsDigit, Abs;
    MarkEnds(mark);
    MarkedEnds(text, mark);
    MarkIsScrubbed(text, mark);
    MarkIsFound(text, mark);
    ParseOf(t, |text| - 1, x);
  }

  lemma MarkedEnds(text: string, mark: string)
    requires text != [] && mark != []
    ensures var t := text + [' '] + mark;
            t[0] == text[0] && t[|t| - 1] == mark[|mark| - 1] && t[|text| - 1] == text[|text| - 1]
  {
  }

  lemma MarkEnds(mark: string)
    requires IsMark(mark, 'd') || IsMark(mark, 'c')
    ensures 2 <= |mark| && mark[|mark| - 1] != ')' && !IsSpace(mark[|mark| - 1])
  {
  }

  lemma MarkIsScrubbed(text: string, mark: string)
    requires AllSimple(text) && (IsMark(mark, 'd') || IsMark(mark, 'c'))
    ensures Scrub(text + [' '] + mark, 0) == Clean(text)
  {
    var t, k := text + [' '] + mark, |text| + 1;
    assert t[0..k] == text + [' '];
    CleanOne(' ');
    SimpleConcat(text, [' ']);
    CleanConcat(text, [' ']);
    MatchAtMark(t, k, mark);
    hide AllSimple, Clean, MatchAt, IsMark;
    ScrubSimple(t, 0, k);
    assert Scrub(t, k) == Scrub(t, |t|) == [];
    assert Clean(text) + [] + [] == Clean(text);
  }

  lemma MatchAtMark(t: string, k: nat, mark: string)
    requires 0 < k <= |t| && t[k..] == mark && t[k - 1] == ' ' && (IsMark(mark, 'd') || IsMark(mark, 'c'))
    ensures k < |t| && MatchAt(t, k) == |t| - k > 0 && Boundary(t, k)
    ensures FinalMark(t, k, 'c') <==> IsMark(mark, 'c')
  {
    assert t[k] == mark[0] && t[k + 1] == mark[1] && (|mark| == 3 ==> t[k + 2] == mark[2]);
  }

  lemma MarkIsFound(text: string, mark: string)
    requires AllSimple(text) && (IsMark(mark, 'd') || IsMark(mark, 'c'))
    ensures EndsWithCr(text + [' '] + mark) <==> IsMark(mark, 'c')
  {
    var t, k := text + [' '] + mark, |text| + 1;
    assert t[k..] == mark && t[k - 1] == ' ';
    MatchAtMark(t, k, mark);
    assert t[k - 1] == ' ' && t[k + 1] == mark[1];
    assert forall i: nat :: i < |t| && FinalMark(t, i, 'c') ==> i == k;
  }

  /** Enclosing parentheses make the amount minus its magnitude. */
  lemma PrintThenParseEnclosed(value: real, decimals: nat, symbol: bool)
    ensures var units := RoundHalfUp(value, decimals);
            ParseAmount(['('] + Printed(units, decimals, symbol) + [')'])
            == Some(-Abs(Worth(units, decimals)))
  {
    var units := RoundHalfUp(value, decimals);
    var t := Printed(units, decimals, symbol);
    var x := Worth(units, decimals);
    hide RoundHalfUp, Worth, Printed, Amount, ParseAmount, IsMark, Abs;
    PrintedIsAmount(units, decimals, symbol);
    EnclosedReads(t, x);
  }

  lemma EnclosedReads(text: string, x: real)
    requires Amount(text, x)
    ensures ParseAmount(['('] + text + [')']) == Some(-Abs(x))
  {
    var t := ['('] + text + [')'];
    CleanOne('(');
    CleanOne(')');
    hide ReadNumber, AllSimple, Clean, Scrub, EndsWithCr, ParseAmount;
    CleansConcat(['('], [], text, Clean(text));
    CleansConcat(['('] + text, [] + Clean(text), [')'], []);
    assert [] + Clean(text) + [] == Clean(text);
    ScrubWhole(t);
    assert t[|text|] == text[|text| - 1];
    ParseOf(t, |text|, x);
  }

  /** The space characters of Unicode, as Python counts them. */
  const SPACES: string :=
    ['\t', '\n', '\U{B}', '\U{C}', '\r', '\U{1C}', '\U{1D}', '\U{1E}', '\U{1F}', ' ', '\U{85}', '\U{A0}', '\U{1680}',
     '\U{2000}', '\U{2001}', '\U{2002}', '\U{2003}', '\U{2004}', '\U{2005}', '\U{2006}', '\U{2007}', '\U{2008}',
     '\U{2009}', '\U{200A}', '\U{2028}', '\U{2029}', '\U{202F}', '\U{205F}', '\U{3000}']

  predicate AllSpaces(s: string) {
    forall i :: 0 <= i < |s| ==> s[i] in SPACES
  }

  lemma SpacesAreSpace(c: char)
    ensures c in SPACES <==> IsSpace(c)
  {
  }

  /** A word for the currency: rs, rs and a dot, or inr, with any letters that are those when case is ignored. */
  predicate IsCurrency(mark: string) {
    || (2 <= |mark| <= 3 && mark[0] in ['r', 'R'] && mark[1] in ['s', 'S', '\U{17F}']
        && (|mark| == 3 ==> mark[2] == '.'))
    || (|mark| == 3 && mark[0] in ['i', 'I', '\U{130}', '\U{131}'] && mark[1] in ['n', 'N'] && mark[2] in ['r', 'R'])
  }

  lemma {:induction false} SpacesCleanAway(gap: string)
    requires AllSpaces(gap)
    ensures AllSimple(gap) && Clean(gap) == []
    decreases |gap|
  {
    hide IsSpace;
    if gap != [] {
      SpacesAreSpace(gap[0]);
      SpacesCleanAway(gap[1..]);
    }
  }

  lemma CurrencyIsScrubbed(mark: string, rest: string)
    requires IsCurrency(mark) && rest != [] && AllSimple(rest) && rest[0] != '.'
    ensures Scrub(mark + rest, 0) == Clean(rest)
  {
    var t := mark + rest;
    CurrencyMatches(mark, rest);
    hide AllSimple, Clean, MatchAt, IsCurrency;
    assert t[|mark|..|t|] == rest;
    ScrubSimple(t, |mark|, |t|);
    assert Clean(rest) + [] == Clean(rest);
  }

  lemma CurrencyMatches(mark: string, rest: string)
    requires IsCurrency(mark) && rest != [] && rest[0] != '.'
    ensures MatchAt(mark + rest, 0) == |mark| > 0
  {
    var t := mark + rest;
    assert t[0] == mark[0] && t[1] == mark[1] && t[2] == if |mark| == 3 then mark[2] else rest[0];
  }

  lemma CurrencyStarts(mark: string)
    requires IsCurrency(mark)
    ensures mark != [] && mark[0] != '(' && !IsSpace(mark[0])
  {
  }

  lemma DigitAtTheEnd(t: string)
    requires t != [] && IsDigit(t[|t| - 1])
    ensures !EndsWithCr(t)
  {
  }

  /** A word for the currency before the amount, with spaces between them or none, changes nothing. */
  lemma PrintThenParseWithCurrency(value: real, decimals: nat, symbol: bool, mark: string, gap: string)
    requires IsCurrency(mark) && AllSpaces(gap)
    ensures var units := RoundHalfUp(value, decimals);
            ParseAmount(mark + (gap + Printed(units, decimals, symbol))) == Some(Worth(units, decimals))
  {
    var units := RoundHalfUp(value, decimals);
    hide RoundHalfUp, Worth, Printed, Amount, ParseAmount, IsCurrency, AllSpaces;
    PrintedIsAmount(units, decimals, symbol);
    CurrencyReads(mark, gap, Printed(units, decimals, symbol), Worth(units, decimals));
  }

  lemma CurrencyReads(mark: string, gap: string, text: string, x: real)
    requires IsCurrency(mark) && AllSpaces(gap) && Amount(text, x)
    ensures ParseAmount(mark + (gap + text)) == Some(x)
  {
    var rest := gap + text;
    var t := mark + rest;
    SpacesCleanAway(gap);
    SpaceIsNoDot(gap);
    hide ReadNumber, AllSimple, Clean, Scrub, EndsWithCr, ParseAmount, IsCurrency, IsSpace, IsDigit, AllSpaces;
    SimpleConcat(gap, text);
    CleanConcat(gap, text);
    NothingBefore(Clean(text));
    CurrencyIsScrubbed(mark, rest);
    CurrencyStarts(mark);
    assert t[|t| - 1] == text[|text| - 1] && t[0] == mark[0];
    DigitAtTheEnd(t);
    DigitStarts(t[|t| - 1]);
    ParseOf(t, |t| - 1, x);
  }

  /** A plus sign in front changes nothing. */
  lemma PrintThenParseWithPlus(units: nat, decimals: nat, symbol: bool)
    ensures ParseAmount(['+'] + Printed(units, decimals, symbol)) == Some(Worth(units, decimals))
  {
    var whole, frac := WholePart(units, decimals), FractionPart(units, decimals);
    hide Body, WholePart, FractionPart, Scaled, Worth, Front, Decimal, Cleans, ParseAmount, Tail, IsDigit, IsSpace;
    PrintedValue(units, decimals);
    DecimalOf(whole, frac);
    NothingBefore(whole + Tail(frac));
    FrontBodyCleans(false, symbol, whole, frac);
    FrontBodyEnds(false, symbol, whole, frac);
    PlusReads(Printed(units, decimals, symbol), whole + Tail(frac), Worth(units, decimals));
  }

  lemma PlusReads(text: string, kept: string, x: real)
    requires text != [] && Cleans(text, kept) && IsDigit(text[|text| - 1]) && Decimal(kept) == Some(x)
    ensures ParseAmount(['+'] + text) == Some(x)
  {
    var t := ['+'] + text;
    CleanOne('+');
    PlusIsNoSpace();
    hide AllSimple, Clean, Scrub, ParseAmount, Decimal, IsDigit, IsSpace, EndsWithCr;
    CleansConcat(['+'], ['+'], text, kept);
    ScrubWhole(t);
    NoLettersNoMark(t);
    assert (['+'] + kept)[1..] == kept && t[|t| - 1] == text[|text| - 1];
    DigitStarts(t[|t| - 1]);
    ParseOf(t, |t| - 1, x);
  }

  lemma PlusIsNoSpace()
    ensures !IsSpace('+')
  {
  }

  lemma SpaceIsNoDot(gap: string)
    requires AllSpaces(gap)
    ensures gap != [] ==> gap[0] != '.'
  {
  }

  /** A debit or credit mark that is glued to the digits is no mark: the text is no amount at all. */
  lemma GluedMarkIsNoAmount(units: int, decimals: nat, symbol: bool, mark: string)
    requires IsMark(mark, 'd') || IsMark(mark, 'c')
    ensures ParseAmount(Printed(units, decimals, symbol) + mark) == None
  {
    var text := Printed(units, decimals, symbol);
    hide Worth, Printed, ParseAmount, IsMark, ReadNumber, AllSimple, Clean, IsSpace, IsDigit, Scrub;
    PrintedIsAmount(units, decimals, symbol);
    GluedIsKept(text, mark);
    NothingIsNoNumber();
    LetterIsNoNumber(Clean(text), mark);
    MarkEnds(mark);
    NoneOf(text + mark, |text| - 1);
  }

  lemma GluedIsKept(text: string, mark: string)
    requires text != [] && AllSimple(text) && IsDigit(text[|text| - 1]) && (IsMark(mark, 'd') || IsMark(mark, 'c'))
    ensures Scrub(text + mark, 0) == Clean(text) + mark
  {
    var t, k := text + mark, |text|;
    assert t[0..k] == text && t[k - 1] == text[k - 1];
    assert t[k] == mark[0] && t[k + 1] == mark[1] && (|mark| == 3 ==> t[k + 2] == mark[2]);
    GluedMatches(t, k, mark);
    hide AllSimple, Clean, MatchAt, IsMark, Boundary;
    ScrubSimple(t, 0, k);
    LettersStay(t, k, mark);
  }

  lemma GluedMatches(t: string, k: nat, mark: string)
    requires 0 < k <= |t| && t[k..] == mark && IsDigit(t[k - 1]) && (IsMark(mark, 'd') || IsMark(mark, 'c'))
    ensures forall i :: k <= i < |t| ==> MatchAt(t, i) == 0
  {
    assert t[k] == mark[0] && t[k + 1] == mark[1] && (|mark| == 3 ==> t[k + 2] == mark[2]);
  }

  lemma {:induction false} LettersStay(t: string, k: nat, mark: string)
    requires k <= |t| && t[k..] == mark && forall i :: k <= i < |t| ==> MatchAt(t, i) == 0
    ensures Scrub(t, k) == mark
    decreases |mark|
  {
    hide MatchAt;
    if k < |t| {
      LettersStay(t, k + 1, mark[1..]);
    }
  }

  lemma LetterIsNoNumber(s: string, mark: string)
    requires s != [] && (IsMark(mark, 'd') || IsMark(mark, 'c'))
    ensures ReadNumber(s + mark) == None
  {
    var t := s + mark;
    NoDecimal(t, |s|, mark[0]);
    NoDecimal(t[1..], |s| - 1, mark[0]);
    hide Decimal;
  }

  lemma NothingIsNoNumber()
    ensures ReadNumber([]) == None
  {
  }

  lemma NoDecimal(s: string, i: nat, c: char)
    requires i < |s| && s[i] == c && !IsDigit(c) && c != '.'
    ensures Decimal(s) == None
  {
    var p := Point(s);
    if i < p {
      assert s[..p][i] == c;
    } else {
      assert p < i && s[p + 1..][i - p - 1] == c;
    }
  }

  lemma NoneOf(t: string, digit: nat)
    requires digit < |t| && IsDigit(t[digit]) && !IsSpace(t[0]) && !IsSpace(t[|t| - 1])
    requires ReadNumber(Scrub(t, 0)) == None
    ensures ParseAmount(t) == None
  {
    hide Strip, Nothing, Scrub, ReadNumber, EndsWithCr, IsSpace, IsDigit, Abs;
    StripKeeps(t);
    DigitIsSomething(t, digit);
  }

  /** Spaces around a text never matter. */
  lemma SpacesAround(a: string, t: string, b: string)
    requires AllSpaces(a) && AllSpaces(b)
    ensures ParseAmount(a + t + b) == ParseAmount(t)
  {
    hide Nothing, Scrub, ReadNumber, EndsWithCr, IsSpace, Abs;
    StripAround(a, t, b);
  }

  lemma StripAround(a: string, t: string, b: string)
    requires AllSpaces(a) && AllSpaces(b)
    ensures Strip(a + t + b) == Strip(t)
  {
    hide IsSpace;
    assert a + t + b == a + (t + b);
    LeftSpaces(a, t + b);
    LeftInFront(t, b);
    hide StripLeft;
    RightSpaces(StripLeft(t), b);
  }

  lemma {:induction false} LeftSpaces(a: string, t: string)
    requires AllSpaces(a)
    ensures StripLeft(a + t) == StripLeft(t)
    decreases |a|
  {
    hide IsSpace;
    if a == [] {
      assert a + t == t;
    } else {
      assert (a + t)[1..] == a[1..] + t && (a + t)[0] == a[0];
      SpacesAreSpace(a[0]);
      LeftSpaces(a[1..], t);
    }
  }

  lemma {:induction false} LeftInFront(t: string, b: string)
    requires AllSpaces(b)
    ensures StripLeft(t + b) == if StripLeft(t) == [] then [] else StripLeft(t) + b
    decreases |t|
  {
    hide IsSpace;
    if t == [] {
      assert t + b == b && b + [] == b;
      LeftSpaces(b, []);
    } else {
      assert (t + b)[1..] == t[1..] + b && (t + b)[0] == t[0];
      if IsSpace(t[0]) {
        LeftInFront(t[1..], b);
      }
    }
  }

  lemma {:induction false} RightSpaces(t: string, b: string)
    requires AllSpaces(b)
    ensures StripRight(t + b) == StripRight(t)
    decreases |b|
  {
    hide IsSpace;
    if b == [] {
      assert t + b == t;
    } else {
      var n := |b| - 1;
      assert (t + b)[..|t + b| - 1] == t + b[..n] && (t + b)[|t + b| - 1] == b[n];
      SpacesAreSpace(b[n]);
      RightSpaces(t, b[..n]);
    }
  }
}
