/** The text whose hash is the fingerprint of a bucket: one line per entry, its fields separated by
    bars, the lines sorted and separated by newlines. It tells buckets apart when no key and no
    origin holds a separator, or when no origin does and no version is minted twice. */
module BucketText {
  import opened Order
  import opened Seqs
  import opened Store

  /** What a fingerprint covers of one entry. */
  datatype Item = Item(key: string, version: Version, deleted: bool)

  function Flag(b: bool): string {
    if b then "True" else "False"
  }

  /** `show` is how Python spells a number. */
  function Line(show: real -> string, i: Item): string {
    i.key + "|" + show(i.version.ts) + "|" + i.version.origin + "|" + Flag(i.deleted)
  }

  function Lines(show: real -> string, xs: seq<Item>): seq<string> {
    if xs == [] then [] else Lines(show, xs[..|xs| - 1]) + [Line(show, xs[|xs| - 1])]
  }

  function Sort(lines: seq<string>): seq<string> {
    if lines == [] then [] else Slotted(Sort(lines[..|lines| - 1]), lines[|lines| - 1])
  }

  function Joined(lines: seq<string>): string {
    if lines == [] then "" else if |lines| == 1 then lines[0] else lines[0] + "\n" + Joined(lines[1..])
  }

  function TextOf(lines: seq<string>): string {
    Joined(Sort(lines))
  }

  // ---- The order of the entries does not matter ------------------------------------------

  ghost predicate Lists(xs: seq<Item>, items: set<Item>) {
    NoRepeats(xs) && forall x :: x in xs <==> x in items
  }

  ghost function Listed(items: set<Item>): (xs: seq<Item>)
    ensures Lists(xs, items)
  {
    if items == {} then []
    else
      var i :| i in items;
      Listed(items - {i}) + [i]
  }

  ghost function Text(show: real -> string, items: set<Item>): string {
    TextOf(Lines(show, Listed(items)))
  }

  lemma {:induction false} SlotsCommute(s: seq<string>, x: string, y: string)
    ensures Slotted(Slotted(s, x), y) == Slotted(Slotted(s, y), x)
  {
    Total(x, y);
    if Less(x, y) {
      SlotsInOrder(s, x, y);
    } else if Less(y, x) {
      SlotsInOrder(s, y, x);
    }
  }

  lemma {:induction false} SlotsInOrder(s: seq<string>, x: string, y: string)
    requires Less(x, y)
    ensures Slotted(Slotted(s, x), y) == Slotted(Slotted(s, y), x)
  {
    NotBoth(x, y);
    if s != [] {
      NotBoth(x, s[0]);
      if Less(y, s[0]) { Transitive(x, y, s[0]); }
      SlotsInOrder(s[1..], x, y);
    }
  }

  lemma NotBoth(x: string, y: string)
    ensures !(Less(x, y) && Less(y, x))
  {
    if Less(x, y) && Less(y, x) {
      Transitive(x, y, x);
      Irreflexive(x);
    }
  }

  lemma SortAppend(a: seq<string>, x: string)
    ensures Sort(a + [x]) == Slotted(Sort(a), x)
  {
    assert (a + [x])[..|a|] == a;
  }

  lemma {:induction false} SortAnywhere(a: seq<string>, x: string, b: seq<string>)
    ensures Sort(a + [x] + b) == Slotted(Sort(a + b), x)
  {
    if b == [] {
      assert a + [x] + b == a + [x] && a + b == a;
      SortAppend(a, x);
    } else {
      var n := |b| - 1;
      SortAnywhere(a, x, b[..n]);
      assert a + [x] + b == (a + [x] + b[..n]) + [b[n]] && a + b == (a + b[..n]) + [b[n]];
      SortAppend(a + [x] + b[..n], b[n]);
      SortAppend(a + b[..n], b[n]);
      SlotsCommute(Sort(a + b[..n]), x, b[n]);
    }
  }

  lemma {:induction false} LinesConcat(show: real -> string, a: seq<Item>, b: seq<Item>)
    ensures Lines(show, a + b) == Lines(show, a) + Lines(show, b)
  {
    if b == [] {
      assert a + b == a;
    } else {
      var n := |b| - 1;
      assert (a + b)[..|a + b| - 1] == a + b[..n];
      LinesConcat(show, a, b[..n]);
    }
  }

  lemma LinesOne(show: real -> string, i: Item)
    ensures Lines(show, [i]) == [Line(show, i)]
  {
    assert [i][..0] == [];
  }

  /** Every listing of the items of a bucket spells the same text. */
  lemma {:induction false} AnyListing(show: real -> string, xs: seq<Item>, ys: seq<Item>)
    requires NoRepeats(xs) && NoRepeats(ys) && forall x :: x in xs <==> x in ys
    ensures Sort(Lines(show, xs)) == Sort(Lines(show, ys))
  {
    if xs == [] {
      SomeIn(ys);
    } else {
      var n := |xs| - 1;
      var x := xs[n];
      assert x in ys;
      var i :| 0 <= i < |ys| && ys[i] == x;
      var a, b := ys[..i], ys[i + 1..];
      assert xs == xs[..n] + [x];
      OneLess(xs[..n], x, ys, a + b, i);
      AnyListing(show, xs[..n], a + b);
      SplitAt(ys, i);
      LinesConcat(show, a + [x], b);
      LinesConcat(show, a, [x]);
      LinesConcat(show, a, b);
      LinesOne(show, x);
      SortAnywhere(Lines(show, a), Line(show, x), Lines(show, b));
      SortAppend(Lines(show, xs[..n]), Line(show, x));
    }
  }

  lemma OneLess(front: seq<Item>, x: Item, ys: seq<Item>, rest: seq<Item>, i: nat)
    requires NoRepeats(front + [x]) && NoRepeats(ys) && i < |ys| && ys[i] == x && rest == ys[..i] + ys[i + 1..]
    requires forall y :: y in front + [x] <==> y in ys
    ensures NoRepeats(front) && NoRepeats(rest) && forall y :: y in front <==> y in rest
  {
    Without(ys, i);
    assert (front + [x])[|front|] == x && forall k :: 0 <= k < |front| ==> (front + [x])[k] == front[k];
    assert x !in front && x !in rest;
    forall y ensures y in front <==> y in rest {
      assert y in front + [x] <==> y in front || y == x;
    }
  }

  lemma TextOfListing(show: real -> string, items: set<Item>, xs: seq<Item>)
    requires Lists(xs, items)
    ensures TextOf(Lines(show, xs)) == Text(show, items)
  {
    AnyListing(show, xs, Listed(items));
  }

  // ---- Reading the items back ------------------------------------------------------------

  ghost predicate Free(s: string, c: char) {
    forall i :: 0 <= i < |s| ==> s[i] != c
  }

  ghost predicate Clean(s: string) {
    Free(s, '|') && Free(s, '\n')
  }

  /** No separator in the key or the origin. */
  ghost predicate Plain(i: Item) {
    Clean(i.key) && Clean(i.version.origin)
  }

  ghost predicate AllPlain(items: set<Item>) {
    forall i :: i in items ==> Plain(i)
  }

  /** The stamps of the items are told apart by their spelling, and spelled without separators. */
  ghost predicate Spells(show: real -> string, items: set<Item>) {
    && (forall i, j :: i in items && j in items && show(i.version.ts) == show(j.version.ts) ==> i.version.ts == j.version.ts)
    && forall i :: i in items ==> Clean(show(i.version.ts))
  }

  lemma SpellsPart(show: real -> string, part: set<Item>, items: set<Item>)
    requires Spells(show, items) && part <= items
    ensures Spells(show, part)
  {
  }

  function Strokes(n: nat): string {
    if n == 0 then "" else Strokes(n - 1) + "x"
  }

  lemma {:induction false} StrokesClean(n: nat)
    ensures Clean(Strokes(n)) && |Strokes(n)| == n
  {
    if n > 0 { StrokesClean(n - 1); }
  }

  ghost function PlaceOf(stamps: seq<real>, r: real): (k: nat)
    ensures k <= |stamps| && (r in stamps <==> k < |stamps|) && (k < |stamps| ==> stamps[k] == r)
  {
    if stamps == [] then 0 else if stamps[0] == r then 0 else 1 + PlaceOf(stamps[1..], r)
  }

  lemma {:induction false} StampsOf(items: set<Item>) returns (stamps: seq<real>)
    ensures forall i :: i in items ==> i.version.ts in stamps
  {
    stamps := [];
    if items != {} {
      var i :| i in items;
      stamps := StampsOf(items - {i});
      stamps := stamps + [i.version.ts];
    }
  }

  /** Whatever the items, there is a way to spell their stamps. */
  lemma SpellingExists(items: set<Item>) returns (show: real -> string)
    ensures Spells(show, items)
  {
    var stamps := StampsOf(items);
    show := (r: real) => Strokes(PlaceOf(stamps, r));
    forall i | i in items ensures Clean(show(i.version.ts)) { StrokesClean(PlaceOf(stamps, i.version.ts)); }
    forall i, j | i in items && j in items && show(i.version.ts) == show(j.version.ts) ensures i.version.ts == j.version.ts {
      StrokesClean(PlaceOf(stamps, i.version.ts));
      StrokesClean(PlaceOf(stamps, j.version.ts));
    }
  }

  lemma FieldUnique(c: char, a: string, x: string, b: string, y: string)
    requires Free(a, c) && Free(b, c) && a + [c] + x == b + [c] + y
    ensures a == b && x == y
  {
    var s, t := a + [c] + x, b + [c] + y;
    assert s[|a|] == c && t[|b|] == c;
    assert |a| == |b|;
    assert s[..|a|] == a && t[..|b|] == b && s[|a| + 1..] == x && t[|b| + 1..] == y;
  }

  lemma LineFields(show: real -> string, i: Item)
    ensures Line(show, i) == i.key + ['|'] + (show(i.version.ts) + ['|'] + (i.version.origin + ['|'] + Flag(i.deleted)))
  {
  }

  lemma LineInjective(show: real -> string, i: Item, j: Item)
    requires Spells(show, {i, j}) && Plain(i) && Plain(j) && Line(show, i) == Line(show, j)
    ensures i == j
  {
    LineFields(show, i);
    LineFields(show, j);
    var oi, oj := i.version.origin + ['|'] + Flag(i.deleted), j.version.origin + ['|'] + Flag(j.deleted);
    var ti, tj := show(i.version.ts), show(j.version.ts);
    FieldUnique('|', i.key, ti + ['|'] + oi, j.key, tj + ['|'] + oj);
    FieldUnique('|', ti, oi, tj, oj);
    FieldUnique('|', i.version.origin, Flag(i.deleted), j.version.origin, Flag(j.deleted));
    assert Flag(true)[0] != Flag(false)[0];
  }

  /** A line of the text: not empty, and without a newline in it. */
  ghost predicate OneLine(s: string) {
    s != "" && Free(s, '\n')
  }

  lemma PlainLine(show: real -> string, i: Item)
    requires Spells(show, {i}) && Plain(i)
    ensures OneLine(Line(show, i))
  {
  }

  lemma {:induction false} JoinedInjective(a: seq<string>, b: seq<string>)
    requires forall s :: s in a || s in b ==> OneLine(s)
    requires Joined(a) == Joined(b)
    ensures a == b
  {
    if |a| <= 1 && |b| <= 1 {
      assert forall s :: s in a + b ==> OneLine(s);
      if a != [] { assert a[0] in a; }
      if b != [] { assert b[0] in b; }
    } else if |a| <= 1 {
      JoinedShort(a, b);
    } else if |b| <= 1 {
      JoinedShort(b, a);
    } else {
      assert a[0] in a && b[0] in b;
      assert Joined(a) == a[0] + ['\n'] + Joined(a[1..]) && Joined(b) == b[0] + ['\n'] + Joined(b[1..]);
      FieldUnique('\n', a[0], Joined(a[1..]), b[0], Joined(b[1..]));
      JoinedInjective(a[1..], b[1..]);
      assert a == [a[0]] + a[1..] && b == [b[0]] + b[1..];
    }
  }

  lemma JoinedShort(a: seq<string>, b: seq<string>)
    requires |a| <= 1 < |b| && forall s :: s in a || s in b ==> OneLine(s)
    ensures Joined(a) != Joined(b)
  {
    assert Joined(b)[|b[0]|] == '\n';
    if a != [] { assert a[0] in a; }
  }

  lemma SortedLinesNext(show: real -> string, xs: seq<Item>, l: string)
    requires xs != []
    ensures l in Sort(Lines(show, xs)) <==> l in Sort(Lines(show, xs[..|xs| - 1])) || l == Line(show, xs[|xs| - 1])
  {
    SortAppend(Lines(show, xs[..|xs| - 1]), Line(show, xs[|xs| - 1]));
  }

  lemma {:induction false} ItemSpelled(show: real -> string, xs: seq<Item>, k: nat)
    requires k < |xs|
    ensures Line(show, xs[k]) in Sort(Lines(show, xs))
  {
    SortedLinesNext(show, xs, Line(show, xs[k]));
    if k < |xs| - 1 { ItemSpelled(show, xs[..|xs| - 1], k); }
  }

  lemma {:induction false} LineSpells(show: real -> string, xs: seq<Item>, l: string) returns (k: nat)
    requires l in Sort(Lines(show, xs))
    ensures k < |xs| && Line(show, xs[k]) == l
  {
    SortedLinesNext(show, xs, l);
    k := |xs| - 1;
    if l != Line(show, xs[k]) { k := LineSpells(show, xs[..|xs| - 1], l); }
  }

  /** The same line is the same item. */
  ghost predicate LinesApart(show: real -> string, items: set<Item>) {
    forall i, j :: i in items && j in items && Line(show, i) == Line(show, j) ==> i == j
  }

  lemma TextContains(show: real -> string, x: set<Item>, y: set<Item>, i: Item)
    requires LinesApart(show, x + y) && i in x
    requires Sort(Lines(show, Listed(x))) == Sort(Lines(show, Listed(y)))
    ensures i in y
  {
    var xs, ys := Listed(x), Listed(y);
    var k :| 0 <= k < |xs| && xs[k] == i;
    ItemSpelled(show, xs, k);
    var n := LineSpells(show, ys, Line(show, i));
    assert ys[n] in ys;
    assert ys[n] in x + y && i in x + y;
  }

  lemma SameLinesSameItems(show: real -> string, x: set<Item>, y: set<Item>)
    requires LinesApart(show, x + y) && Sort(Lines(show, Listed(x))) == Sort(Lines(show, Listed(y)))
    ensures x == y
  {
    assert y + x == x + y;
    forall i | i in x ensures i in y { TextContains(show, x, y, i); }
    forall i | i in y ensures i in x { TextContains(show, y, x, i); }
  }

  lemma SpelledLines(show: real -> string, x: set<Item>, l: string)
    requires Spells(show, x) && AllPlain(x) && l in Sort(Lines(show, Listed(x)))
    ensures OneLine(l)
  {
    var k := LineSpells(show, Listed(x), l);
    assert Listed(x)[k] in Listed(x);
    SpellsPart(show, {Listed(x)[k]}, x);
    PlainLine(show, Listed(x)[k]);
  }

  lemma PlainLinesApart(show: real -> string, items: set<Item>)
    requires Spells(show, items) && AllPlain(items)
    ensures LinesApart(show, items)
  {
    forall i, j | i in items && j in items && Line(show, i) == Line(show, j) ensures i == j {
      SpellsPart(show, {i, j}, items);
      LineInjective(show, i, j);
    }
  }

  /** For items without separators the text determines the items. */
  lemma TextInjective(show: real -> string, x: set<Item>, y: set<Item>)
    requires Spells(show, x + y) && AllPlain(x + y) && Text(show, x) == Text(show, y)
    ensures x == y
  {
    var a, b := Sort(Lines(show, Listed(x))), Sort(Lines(show, Listed(y)));
    SpellsPart(show, x, x + y);
    SpellsPart(show, y, x + y);
    forall l | l in a || l in b ensures OneLine(l) {
      if l in a { SpelledLines(show, x, l); } else { SpelledLines(show, y, l); }
    }
    JoinedInjective(a, b);
    PlainLinesApart(show, x + y);
    SameLinesSameItems(show, x, y);
  }

  // ---- Versions that are minted once -----------------------------------------------------

  /** No version stands for two items, and no origin holds a separator; keys are any strings. */
  ghost predicate Signed(items: set<Item>) {
    && (forall i, j :: i in items && j in items && i.version == j.version ==> i == j)
    && forall i :: i in items ==> Clean(i.version.origin)
  }

  lemma LastFieldUnique(c: char, x: string, a: string, y: string, b: string)
    requires Free(a, c) && Free(b, c) && x + [c] + a == y + [c] + b
    ensures a == b && x == y
  {
    var s, t := x + [c] + a, y + [c] + b;
    assert s[|x|] == c && t[|y|] == c;
    assert |a| == |b|;
    assert s[..|x|] == x && t[..|y|] == y && s[|x| + 1..] == a && t[|y| + 1..] == b;
  }

  /** What precedes the last three fields of a line does not matter to reading them. */
  lemma TailVersion(show: real -> string, p: string, i: Item, q: string, j: Item)
    requires Spells(show, {i, j}) && Clean(i.version.origin) && Clean(j.version.origin)
    requires p + Line(show, i) == q + Line(show, j)
    ensures i.version == j.version
  {
    var ti, tj := show(i.version.ts), show(j.version.ts);
    LineTail(show, p, i);
    LineTail(show, q, j);
    LastFieldUnique('|', (p + i.key) + ['|'] + ti + ['|'] + i.version.origin, Flag(i.deleted),
                    (q + j.key) + ['|'] + tj + ['|'] + j.version.origin, Flag(j.deleted));
    LastFieldUnique('|', (p + i.key) + ['|'] + ti, i.version.origin, (q + j.key) + ['|'] + tj, j.version.origin);
    LastFieldUnique('|', p + i.key, ti, q + j.key, tj);
  }

  lemma LineTail(show: real -> string, p: string, i: Item)
    ensures p + Line(show, i) ==
            (p + i.key) + ['|'] + show(i.version.ts) + ['|'] + i.version.origin + ['|'] + Flag(i.deleted)
  {
  }

  lemma {:induction false} JoinedLast(lines: seq<string>)
    requires |lines| > 1
    ensures Joined(lines) == Joined(lines[..|lines| - 1]) + "\n" + lines[|lines| - 1]
  {
    var n := |lines| - 1;
    if n == 1 {
      assert lines[1..] == [lines[1]] && lines[..1] == [lines[0]];
    } else {
      JoinedLast(lines[1..]);
      assert lines[1..][..n - 1] == lines[..n][1..] && lines[1..][n - 1] == lines[n];
    }
  }

  /** Every line is that of an item of `items`. */
  ghost predicate AllFrom(show: real -> string, lines: seq<string>, items: set<Item>) {
    forall k :: 0 <= k < |lines| ==> IsFrom(show, lines[k], items)
  }

  ghost predicate IsFrom(show: real -> string, l: string, items: set<Item>) {
    exists i :: i in items && Line(show, i) == l
  }

  /** What stands before the last line, with its newline. */
  function Before(lines: seq<string>): string {
    if |lines| <= 1 then "" else Joined(lines[..|lines| - 1]) + "\n"
  }

  lemma JoinedBefore(lines: seq<string>)
    requires lines != []
    ensures Joined(lines) == Before(lines) + lines[|lines| - 1]
  {
    if |lines| > 1 { JoinedLast(lines); }
  }

  /** Read from the back, the lines of signed items can be told apart whatever their keys hold. */
  lemma LastLineSame(show: real -> string, items: set<Item>, a: seq<string>, b: seq<string>)
    requires Spells(show, items) && Signed(items) && AllFrom(show, a, items) && AllFrom(show, b, items)
    requires a != [] && b != [] && Joined(a) == Joined(b)
    ensures a[|a| - 1] == b[|b| - 1] && Before(a) == Before(b)
  {
    JoinedBefore(a);
    JoinedBefore(b);
    assert IsFrom(show, a[|a| - 1], items) && IsFrom(show, b[|b| - 1], items);
    var i :| i in items && Line(show, i) == a[|a| - 1];
    var j :| j in items && Line(show, j) == b[|b| - 1];
    SpellsPart(show, {i, j}, items);
    TailVersion(show, Before(a), i, Before(b), j);
    SameEnd(Before(a), Before(b), a[|a| - 1]);
  }

  lemma SameEnd(p: string, q: string, l: string)
    requires p + l == q + l
    ensures p == q
  {
    assert |p| == |q|;
    assert (p + l)[..|p|] == p && (q + l)[..|q|] == q;
  }

  lemma LineNotEmpty(show: real -> string, items: set<Item>, a: seq<string>)
    requires AllFrom(show, a, items) && a != []
    ensures Joined(a) != ""
  {
    JoinedBefore(a);
    assert IsFrom(show, a[|a| - 1], items);
    var i :| i in items && Line(show, i) == a[|a| - 1];
    assert Line(show, i) != "";
  }

  /** The lines but the last. */
  lemma BeforeSame(a: seq<string>, b: seq<string>)
    requires a != [] && b != [] && Before(a) == Before(b)
    ensures |a| > 1 <==> |b| > 1
    ensures |a| > 1 ==> Joined(a[..|a| - 1]) == Joined(b[..|b| - 1])
  {
    if |a| > 1 && |b| > 1 {
      SameEnd(Joined(a[..|a| - 1]), Joined(b[..|b| - 1]), "\n");
    }
  }

  lemma FrontFrom(show: real -> string, items: set<Item>, a: seq<string>)
    requires AllFrom(show, a, items) && a != []
    ensures AllFrom(show, a[..|a| - 1], items)
  {
    var front := a[..|a| - 1];
    forall k | 0 <= k < |front| ensures IsFrom(show, front[k], items) { assert IsFrom(show, a[k], items); }
  }

  lemma SameFront(a: seq<string>, b: seq<string>)
    requires a != [] && b != [] && a[|a| - 1] == b[|b| - 1] && a[..|a| - 1] == b[..|b| - 1]
    ensures a == b
  {
    assert a == a[..|a| - 1] + [a[|a| - 1]] && b == b[..|b| - 1] + [b[|b| - 1]];
  }

  lemma {:induction false} SignedLinesSame(show: real -> string, items: set<Item>, a: seq<string>, b: seq<string>)
    requires Spells(show, items) && Signed(items) && AllFrom(show, a, items) && AllFrom(show, b, items)
    requires Joined(a) == Joined(b)
    ensures a == b
  {
    if a == [] || b == [] {
      if a != [] { LineNotEmpty(show, items, a); }
      if b != [] { LineNotEmpty(show, items, b); }
    } else {
      LastLineSame(show, items, a, b);
      BeforeSame(a, b);
      FrontFrom(show, items, a);
      FrontFrom(show, items, b);
      if |a| > 1 {
        SignedLinesSame(show, items, a[..|a| - 1], b[..|b| - 1]);
      }
      SameFront(a, b);
    }
  }

  lemma SortedFrom(show: real -> string, x: set<Item>, items: set<Item>)
    requires x <= items
    ensures AllFrom(show, Sort(Lines(show, Listed(x))), items)
  {
    var a := Sort(Lines(show, Listed(x)));
    forall k | 0 <= k < |a| ensures IsFrom(show, a[k], items) {
      var n := LineSpells(show, Listed(x), a[k]);
      assert Listed(x)[n] in Listed(x);
    }
  }

  lemma SignedLinesApart(show: real -> string, items: set<Item>)
    requires Spells(show, items) && Signed(items)
    ensures LinesApart(show, items)
  {
    forall i, j | i in items && j in items && Line(show, i) == Line(show, j) ensures i == j {
      SpellsPart(show, {i, j}, items);
      TailVersion(show, "", i, "", j);
    }
  }

  /** Where no version is minted twice and origins hold no separator, the text determines the items
      whatever their keys are. */
  lemma SignedTextInjective(show: real -> string, x: set<Item>, y: set<Item>)
    requires Spells(show, x + y) && Signed(x + y) && Text(show, x) == Text(show, y)
    ensures x == y
  {
    SortedFrom(show, x, x + y);
    SortedFrom(show, y, x + y);
    SignedLinesSame(show, x + y, Sort(Lines(show, Listed(x))), Sort(Lines(show, Listed(y))));
    SignedLinesApart(show, x + y);
    SameLinesSameItems(show, x, y);
  }

  // ---- Texts that collide ----------------------------------------------------------------

  lemma TextOfOne(show: real -> string, i: Item)
    ensures Text(show, {i}) == Line(show, i)
  {
    TextOfListing(show, {i}, [i]);
    LinesOne(show, i);
    SortAppend([], Line(show, i));
    assert [] + [Line(show, i)] == [Line(show, i)];
  }

  lemma LinesTwo(show: real -> string, i: Item, j: Item)
    ensures Lines(show, [i, j]) == [Line(show, i), Line(show, j)]
  {
    LinesOne(show, i);
    LinesOne(show, j);
    LinesConcat(show, [i], [j]);
    assert [i] + [j] == [i, j];
  }

  lemma SortTwo(a: string, b: string)
    requires Less(a, b)
    ensures Sort([a, b]) == [a, b]
  {
    NotBoth(a, b);
    assert [a] + [b] == [a, b] && [] + [a] == [a];
    SortAppend([], a);
    SortAppend([a], b);
    SlottedOne(a, b);
  }

  lemma SlottedOne(a: string, b: string)
    requires !Less(b, a)
    ensures Slotted([], a) == [a] && Slotted([a], b) == [a, b]
  {
    assert [a][1..] == [] && Slotted([], b) == [b];
  }

  lemma TextOfTwo(show: real -> string, i: Item, j: Item)
    requires Less(Line(show, i), Line(show, j))
    ensures Text(show, {i, j}) == Line(show, i) + "\n" + Line(show, j)
  {
    Irreflexive(Line(show, i));
    assert Lists([i, j], {i, j});
    TextOfListing(show, {i, j}, [i, j]);
    LinesTwo(show, i, j);
    SortTwo(Line(show, i), Line(show, j));
    JoinedTwo(Line(show, i), Line(show, j));
  }

  lemma JoinedTwo(a: string, b: string)
    ensures Joined([a, b]) == a + "\n" + b
  {
    assert [a, b][1..] == [b];
  }

  /** With separators in keys one entry can spell the lines of two. */
  lemma SeparatorsCollide(show: real -> string, v: Version, w: Version, k: string, l: string)
    requires Less(Line(show, Item(k, v, false)), Line(show, Item(l, w, false)))
    ensures var one := {Item(Line(show, Item(k, v, false)) + "\n" + l, w, false)};
            var two := {Item(k, v, false), Item(l, w, false)};
            one != two && Text(show, one) == Text(show, two)
  {
    var i, j := Item(k, v, false), Item(l, w, false);
    var x := Item(Line(show, i) + "\n" + l, w, false);
    TextOfOne(show, x);
    TextOfTwo(show, i, j);
    LineAfter(show, Line(show, i) + "\n", l, w);
    LineLonger(show, i);
    assert i in {i, j} && |i.key| < |x.key|;
    assert i !in {x};
  }

  /** A bar in an origin: two entries at different keys, under versions of different nodes, that
      spell one line. */
  lemma BarsCollide(show: real -> string, k: string, t: real, o: string, u: real, p: string)
    ensures var i := Item(k + "|" + show(t) + "|" + o, Version(u, p), false);
            var j := Item(k, Version(t, o + "|" + show(u) + "|" + p), false);
            i.key != j.key && i.version.origin != j.version.origin && Text(show, {i}) == Text(show, {j})
  {
    var i := Item(k + "|" + show(t) + "|" + o, Version(u, p), false);
    var j := Item(k, Version(t, o + "|" + show(u) + "|" + p), false);
    TextOfOne(show, i);
    TextOfOne(show, j);
    assert Line(show, i) == Line(show, j);
    assert |i.key| > |j.key| && |i.version.origin| < |j.version.origin|;
  }

  lemma LineAfter(show: real -> string, p: string, k: string, v: Version)
    ensures Line(show, Item(p + k, v, false)) == p + Line(show, Item(k, v, false))
  {
  }

  lemma LineLonger(show: real -> string, i: Item)
    ensures |Line(show, i)| > |i.key|
  {
  }
}
