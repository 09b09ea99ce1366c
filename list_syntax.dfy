/**
 * The list-syntax command: the `%` markup of a syntax item's text, the
 * filtering and ordering of the items, the aligned listing, and the rows
 * and regex spellings listed for a single character.
 *
 * The syntax table itself, the regex engine (Regex.IsMatch, the escape mode
 * of a character) and the names of the ASCII characters are inputs.
 */
module ListSyntax {
  import Text

  /** The sections of the syntax table, in the enum's declaration order. */
  datatype SyntaxSection =
    | None | AlternationConstructs | Anchors | BackreferenceConstructs | CharacterClasses
    | CharacterEscapes | GeneralCategories | GroupingConstructs | Miscellaneous | NamedBlocks
    | Options | Quantifiers | Substitutions

  /** The enum value of a section, which OrderBy compares when no sections are given. */
  function Ordinal(s: SyntaxSection): nat
  {
    match s
    case None => 0
    case AlternationConstructs => 1
    case Anchors => 2
    case BackreferenceConstructs => 3
    case CharacterClasses => 4
    case CharacterEscapes => 5
    case GeneralCategories => 6
    case GroupingConstructs => 7
    case Miscellaneous => 8
    case NamedBlocks => 9
    case Options => 10
    case Quantifiers => 11
    case Substitutions => 12
  }

  /** The section's name split at its camel-case humps, upper-cased. */
  function Heading(s: SyntaxSection): string
  {
    match s
    case None => "NONE"
    case AlternationConstructs => "ALTERNATION CONSTRUCTS"
    case Anchors => "ANCHORS"
    case BackreferenceConstructs => "BACKREFERENCE CONSTRUCTS"
    case CharacterClasses => "CHARACTER CLASSES"
    case CharacterEscapes => "CHARACTER ESCAPES"
    case GeneralCategories => "GENERAL CATEGORIES"
    case GroupingConstructs => "GROUPING CONSTRUCTS"
    case Miscellaneous => "MISCELLANEOUS"
    case NamedBlocks => "NAMED BLOCKS"
    case Options => "OPTIONS"
    case Quantifiers => "QUANTIFIERS"
    case Substitutions => "SUBSTITUTIONS"
  }

  /** An entry of the syntax table. In `text`, pairs of `%` enclose the parts shown uncoloured. */
  datatype SyntaxItem = SyntaxItem(text: string, section: SyntaxSection, description: string)

  /** What the command returns; Threw stands for an exception escaping the command. */
  datatype ListResult = Success | NoMatch | Threw

  // ---------------------------------------------------------------- the % markup

  /** One `Write(text, start, count)` call; `syntax` is the syntax colour. */
  datatype Segment = Segment(start: int, count: int, syntax: bool)

  function End(g: Segment): int
  {
    g.start + g.count
  }

  /** The call's range lies inside `text`, so the call does not throw. */
  predicate InRange(text: string, g: Segment)
  {
    0 <= g.start && 0 <= g.count && End(g) <= |text|
  }

  /** No `%` in `text[m..n]`. */
  predicate Plain(text: string, m: int, n: int)
  {
    forall p :: 0 <= m <= p < n <= |text| ==> text[p] != '%'
  }

  /** Every call is in range, and the calls alternate syntax colour and plain, starting with the syntax colour. */
  predicate Alternating(text: string, segments: seq<Segment>)
  {
    forall k :: 0 <= k < |segments| ==> InRange(text, segments[k]) && segments[k].syntax == (k % 2 == 0)
  }

  /**
   * The calls cover `text[..n]` piece by piece: the first starts at 0, the last
   * ends at `n`, each is followed by one `%` and then by the next, and none of
   * them covers a `%`.
   */
  predicate Tiles(text: string, n: int, segments: seq<Segment>)
  {
    && 0 <= n <= |text|
    && |segments| > 0
    && segments[0].start == 0
    && End(segments[|segments| - 1]) == n
    && (forall k :: 0 <= k < |segments| ==> InRange(text, segments[k]) && Plain(text, segments[k].start, End(segments[k])))
    && (forall k :: 0 <= k < |segments| - 1 ==>
          End(segments[k]) < |text| && text[End(segments[k])] == '%' && segments[k + 1].start == End(segments[k]) + 1)
  }

  /** The calls cover `text[..m]`, whose last character is a `%`; or there are none yet and `m` is 0. */
  predicate TiledBefore(text: string, m: int, segments: seq<Segment>)
  {
    if segments == [] then m == 0 else 1 <= m <= |text| && text[m - 1] == '%' && Tiles(text, m - 1, segments)
  }

  /** A call for a `%`-free run that starts right after the covered part extends the cover. */
  lemma TilesSnoc(text: string, m: int, n: int, segments: seq<Segment>, syntax: bool)
    requires TiledBefore(text, m, segments)
    requires m <= n <= |text| && Plain(text, m, n)
    ensures Tiles(text, n, segments + [Segment(m, n - m, syntax)])
  {
    var next := segments + [Segment(m, n - m, syntax)];
    assert next[..|segments|] == segments;
    forall k | 0 <= k < |next| - 1
      ensures End(next[k]) < |text| && text[End(next[k])] == '%' && next[k + 1].start == End(next[k]) + 1
    {
      assert next[k] == segments[k];
      if k == |segments| - 1 {
        assert next[k + 1].start == m;
      } else {
        assert next[k + 1] == segments[k + 1];
      }
    }
  }

  /** What the calls write, in order. */
  function Output(text: string, segments: seq<Segment>): string
    requires forall k :: 0 <= k < |segments| ==> InRange(text, segments[k])
  {
    if segments == [] then ""
    else
      var g := segments[|segments| - 1];
      assert InRange(text, g);
      Output(text, segments[..|segments| - 1]) + text[g.start..End(g)]
  }

  /** A `%`-free run adds itself to the text without `%` and adds no `%`. */
  lemma {:induction false} WithoutPlain(text: string, m: nat, n: nat)
    requires m <= n <= |text| && Plain(text, m, n)
    ensures Text.Without(text[..n], '%') == Text.Without(text[..m], '%') + text[m..n]
    ensures Text.CountChar(text[..n], '%') == Text.CountChar(text[..m], '%')
  {
    if n > m {
      WithoutPlain(text, m, n - 1);
      PrefixSnoc(text, n);
      Text.SliceSnoc(text, m, n);
      Text.AppendAssoc(Text.Without(text[..m], '%'), text[m..n - 1], [text[n - 1]]);
    }
  }

  /** One more character of the text: kept unless it is a `%`, which is counted instead. */
  lemma PrefixSnoc(text: string, n: nat)
    requires 0 < n <= |text|
    ensures Text.Without(text[..n], '%') == Text.Without(text[..n - 1], '%') + (if text[n - 1] == '%' then "" else [text[n - 1]])
    ensures Text.CountChar(text[..n], '%') == Text.CountChar(text[..n - 1], '%') + (if text[n - 1] == '%' then 1 else 0)
  {
    assert text[..n][..n - 1] == text[..n - 1];
  }

  /**
   * A cover writes exactly the covered text with its `%` removed, in one call
   * more than there are `%`.
   */
  lemma {:induction false} TilesOutput(text: string, n: int, segments: seq<Segment>)
    requires Tiles(text, n, segments)
    ensures Output(text, segments) == Text.Without(text[..n], '%')
    ensures |segments| == Text.CountChar(text[..n], '%') + 1
    decreases |segments|
  {
    var g := segments[|segments| - 1];
    assert InRange(text, g);
    var prefix := segments[..|segments| - 1];
    if prefix == [] {
      assert Output(text, prefix) == "";
      WithoutPlain(text, 0, n);
      assert text[..0] == "";
    } else {
      var e := End(prefix[|prefix| - 1]);
      TilesPrefix(text, n, segments);
      TilesOutput(text, e, prefix);
      PrefixSnoc(text, e + 1);
      Text.AppendEmpty(Text.Without(text[..e], '%'));
      WithoutPlain(text, e + 1, n);
      assert Output(text, segments) == Output(text, prefix) + text[e + 1..n];
    }
  }

  /** Dropping the last call leaves a cover of the text before the `%` that precedes it. */
  lemma TilesPrefix(text: string, n: int, segments: seq<Segment>)
    requires Tiles(text, n, segments) && |segments| > 1
    ensures var prefix := segments[..|segments| - 1]; var e := End(prefix[|prefix| - 1]);
      && Tiles(text, e, prefix) && e < |text| && text[e] == '%' && segments[|segments| - 1].start == e + 1
  {
    var prefix := segments[..|segments| - 1];
    forall k | 0 <= k < |prefix| - 1
      ensures End(prefix[k]) < |text| && text[End(prefix[k])] == '%' && prefix[k + 1].start == End(prefix[k]) + 1
    {
      assert prefix[k] == segments[k] && prefix[k + 1] == segments[k + 1];
    }
    assert segments[|segments| - 2] == prefix[|prefix| - 1];
  }

  /** The number of `%` in `text[..n]`. */
  function PercentsTo(text: string, n: nat): nat
    requires n <= |text|
  {
    if n == 0 then 0 else PercentsTo(text, n - 1) + (if text[n - 1] == '%' then 1 else 0)
  }

  lemma {:induction false} PercentsCount(text: string, n: nat)
    requires n <= |text|
    ensures PercentsTo(text, n) == Text.CountChar(text[..n], '%')
  {
    if n > 0 {
      PercentsCount(text, n - 1);
      assert text[..n][..n - 1] == text[..n - 1];
    }
  }

  lemma {:induction false} PercentsPlain(text: string, m: nat, n: nat)
    requires m <= n <= |text| && Plain(text, m, n)
    ensures PercentsTo(text, n) == PercentsTo(text, m)
  {
    if n > m {
      PercentsPlain(text, m, n - 1);
    }
  }

  /** Scanning state at the head of the loop. */
  predicate Scanned(text: string, i: nat, prevIndex: nat, segments: seq<Segment>)
  {
    && prevIndex <= i <= |text|
    && |segments| % 2 == 0
    && Alternating(text, segments)
    && TiledBefore(text, prevIndex, segments)
    && Plain(text, prevIndex, i)
    && PercentsTo(text, i) == |segments|
  }

  /** An opening `%` at `i`, closed at `j` or left open when `j` is the length. */
  lemma ScanPair(text: string, i: nat, prevIndex: nat, segments: seq<Segment>, j: nat)
    requires Scanned(text, i, prevIndex, segments)
    requires i < |text| && text[i] == '%'
    requires i + 1 <= j <= |text| && Plain(text, i + 1, j) && (j < |text| ==> text[j] == '%')
    ensures var next := segments + [Segment(prevIndex, i - prevIndex, true)] + [Segment(i + 1, j - i - 1, false)];
      && Alternating(text, next)
      && (j < |text| ==> Scanned(text, j + 1, j + 1, next))
      && (j == |text| ==> PercentsTo(text, |text|) + 1 == |next|)
  {
    var a, b := Segment(prevIndex, i - prevIndex, true), Segment(i + 1, j - i - 1, false);
    AlternatingPair(text, segments, a, b);
    PercentsPlain(text, i + 1, j);
    assert PercentsTo(text, j) == |segments| + 1;
    if j < |text| {
      ScanPairClosed(text, i, prevIndex, segments, j);
    }
  }

  /** A `%` closed at `j`: scanning goes on after it. */
  lemma ScanPairClosed(text: string, i: nat, prevIndex: nat, segments: seq<Segment>, j: nat)
    requires Scanned(text, i, prevIndex, segments)
    requires i < |text| && text[i] == '%'
    requires i + 1 <= j < |text| && Plain(text, i + 1, j) && text[j] == '%'
    requires PercentsTo(text, j) == |segments| + 1
    requires Alternating(text, segments + [Segment(prevIndex, i - prevIndex, true)] + [Segment(i + 1, j - i - 1, false)])
    ensures Scanned(text, j + 1, j + 1, segments + [Segment(prevIndex, i - prevIndex, true)] + [Segment(i + 1, j - i - 1, false)])
  {
    var a, b := Segment(prevIndex, i - prevIndex, true), Segment(i + 1, j - i - 1, false);
    TilesSnoc(text, prevIndex, i, segments, true);
    TilesSnoc(text, i + 1, j, segments + [a], false);
    assert TiledBefore(text, j + 1, segments + [a] + [b]);
  }

  /** A syntax call followed by a plain call keeps the calls alternating. */
  lemma AlternatingPair(text: string, segments: seq<Segment>, a: Segment, b: Segment)
    requires |segments| % 2 == 0 && Alternating(text, segments)
    requires InRange(text, a) && a.syntax && InRange(text, b) && !b.syntax
    ensures Alternating(text, segments + [a] + [b])
  {
  }

  /**
   * The scanner of one item's text: the Write calls it issues, in order. With an
   * even number of `%` the calls cover the whole text, alternating syntax
   * colour and plain; with an odd number every call but the last is in range,
   * and the last has a count of -1, so it throws.
   */
  method Scan(text: string) returns (segments: seq<Segment>)
    ensures Text.CountChar(text, '%') % 2 == 0 ==> Alternating(text, segments) && Tiles(text, |text|, segments)
    ensures Text.CountChar(text, '%') % 2 == 1 ==>
      && |segments| > 0
      && Alternating(text, segments[..|segments| - 1])
      && segments[|segments| - 1] == Segment(|text| + 1, -1, true)
  {
    var length := |text|;
    var prevIndex := 0;
    var i := 0;
    segments := [];
    while i < length
      invariant ScanLoop(text, i, prevIndex, segments)
    {
      if text[i] == '%' {
        var j := ClosingIndex(text, i);
        ScanPairLoop(text, i, prevIndex, segments, j);
        segments := segments + [Segment(prevIndex, i - prevIndex, true)];
        segments := segments + [Segment(i + 1, j - i - 1, false)];
        i := j;
        prevIndex := j + 1;
      } else {
        ScanPlain(text, i, prevIndex, segments);
      }
      i := i + 1;
    }
    ScanFinish(text, i, prevIndex, segments);
    segments := segments + [Segment(prevIndex, length - prevIndex, true)];
  }

  /**
   * The scanner's loop state: inside the text, or one past its end after a `%`
   * that was never closed.
   */
  predicate ScanLoop(text: string, i: nat, prevIndex: nat, segments: seq<Segment>)
  {
    && prevIndex <= i <= |text| + 1
    && (i <= |text| ==> Scanned(text, i, prevIndex, segments))
    && |segments| % 2 == 0
    && (i == |text| + 1 ==> prevIndex == i && PercentsTo(text, |text|) + 1 == |segments| && Alternating(text, segments))
  }

  /** A character other than `%` extends the run being scanned. */
  lemma ScanPlain(text: string, i: nat, prevIndex: nat, segments: seq<Segment>)
    requires ScanLoop(text, i, prevIndex, segments) && i < |text| && text[i] != '%'
    ensures ScanLoop(text, i + 1, prevIndex, segments)
  {
    assert PercentsTo(text, i + 1) == PercentsTo(text, i);
  }

  lemma ScanPairLoop(text: string, i: nat, prevIndex: nat, segments: seq<Segment>, j: nat)
    requires ScanLoop(text, i, prevIndex, segments)
    requires i < |text| && text[i] == '%'
    requires i + 1 <= j <= |text| && Plain(text, i + 1, j) && (j < |text| ==> text[j] == '%')
    ensures ScanLoop(text, j + 1, j + 1,
      segments + [Segment(prevIndex, i - prevIndex, true)] + [Segment(i + 1, j - i - 1, false)])
  {
    ScanPair(text, i, prevIndex, segments, j);
  }

  /** The last call, for the rest of the text after the loop. */
  lemma ScanFinish(text: string, i: nat, prevIndex: nat, segments: seq<Segment>)
    requires i >= |text| && ScanLoop(text, i, prevIndex, segments)
    ensures var next := segments + [Segment(prevIndex, |text| - prevIndex, true)];
      && (Text.CountChar(text, '%') % 2 == 0 ==> Alternating(text, next) && Tiles(text, |text|, next))
      && (Text.CountChar(text, '%') % 2 == 1 ==>
           Alternating(text, next[..|next| - 1]) && next[|next| - 1] == Segment(|text| + 1, -1, true))
  {
    PercentsCount(text, |text|);
    assert text[..|text|] == text;
    var next := segments + [Segment(prevIndex, |text| - prevIndex, true)];
    assert next[..|segments|] == segments;
    if i == |text| {
      ScanFinishEven(text, prevIndex, segments);
    } else {
      assert Text.CountChar(text, '%') % 2 == 1;
    }
  }

  /** Every `%` was closed: the last call covers the rest of the text. */
  lemma ScanFinishEven(text: string, prevIndex: nat, segments: seq<Segment>)
    requires Scanned(text, |text|, prevIndex, segments)
    ensures Alternating(text, segments + [Segment(prevIndex, |text| - prevIndex, true)])
    ensures Tiles(text, |text|, segments + [Segment(prevIndex, |text| - prevIndex, true)])
  {
    TilesSnoc(text, prevIndex, |text|, segments, true);
    AlternatingSnoc(text, segments, Segment(prevIndex, |text| - prevIndex, true));
  }

  /** A syntax call after an even number of calls keeps them alternating. */
  lemma AlternatingSnoc(text: string, segments: seq<Segment>, g: Segment)
    requires |segments| % 2 == 0 && Alternating(text, segments)
    requires InRange(text, g) && g.syntax
    ensures Alternating(text, segments + [g])
  {
  }

  /** The inner scan: the index of the next `%` after `i`, or the length of the text. */
  method ClosingIndex(text: string, i: nat) returns (j: nat)
    requires i < |text|
    ensures i + 1 <= j <= |text|
    ensures Plain(text, i + 1, j)
    ensures j < |text| ==> text[j] == '%'
  {
    j := i + 1;
    while j < |text| && text[j] != '%'
      invariant i + 1 <= j <= |text|
      invariant Plain(text, i + 1, j)
    {
      j := j + 1;
    }
  }

  // ---------------------------------------------------------------- filtering and ordering

  /** The sections in the enum's declaration order. */
  const AllSections: seq<SyntaxSection> := [
    SyntaxSection.None, AlternationConstructs, Anchors, BackreferenceConstructs, CharacterClasses,
    CharacterEscapes, GeneralCategories, GroupingConstructs, Miscellaneous, NamedBlocks,
    Options, Quantifiers, Substitutions]

  lemma AllSectionsInOrder()
    ensures forall s: SyntaxSection :: s in AllSections
    ensures forall k :: 0 <= k < |AllSections| ==> Ordinal(AllSections[k]) == k
    ensures Distinct(AllSections)
  {
    forall s: SyntaxSection ensures s in AllSections {
      assert AllSections[Ordinal(s)] == s;
    }
  }

  predicate Distinct<T(==)>(xs: seq<T>)
  {
    forall i, j :: 0 <= i < j < |xs| ==> xs[i] != xs[j]
  }

  /** The filter keeps an item whose text or description holds it, ignoring case; an empty filter keeps every item. */
  predicate Matches(item: SyntaxItem, filter: string)
  {
    filter == "" || Text.ContainsIgnoreCase(item.text, filter) || Text.ContainsIgnoreCase(item.description, filter)
  }

  /** The items the filter keeps, in order. */
  function Filtered(items: seq<SyntaxItem>, filter: string): (r: seq<SyntaxItem>)
    ensures forall x :: x in r <==> x in items && Matches(x, filter)
    ensures filter == "" ==> r == items
  {
    if items == [] then []
    else
      var x := items[|items| - 1];
      Filtered(items[..|items| - 1], filter) + (if Matches(x, filter) then [x] else [])
  }

  /** How often `s` occurs in `sections`. */
  function Occurrences(sections: seq<SyntaxSection>, s: SyntaxSection): nat
  {
    if sections == [] then 0 else Occurrences(sections[1..], s) + (if sections[0] == s then 1 else 0)
  }

  lemma {:induction false} OccurrencesIn(sections: seq<SyntaxSection>, s: SyntaxSection)
    ensures Occurrences(sections, s) > 0 <==> s in sections
    ensures Distinct(sections) ==> Occurrences(sections, s) <= 1
  {
    if sections != [] {
      OccurrencesIn(sections[1..], s);
      assert sections == [sections[0]] + sections[1..];
    }
  }

  /** `n` copies of `x`. */
  function Copies<T>(x: T, n: nat): (r: seq<T>)
    ensures |r| == n && forall y :: y in r ==> y == x
  {
    if n == 0 then [] else Copies(x, n - 1) + [x]
  }

  /**
   * The join of the items with the given sections on the section: each item,
   * in order, once for every entry of `sections` equal to its section.
   */
  function Joined(items: seq<SyntaxItem>, sections: seq<SyntaxSection>): (r: seq<SyntaxItem>)
  {
    if items == [] then []
    else
      var x := items[|items| - 1];
      Joined(items[..|items| - 1], sections) + Copies(x, Occurrences(sections, x.section))
  }

  /** The join keeps exactly the items whose section is listed, and with distinct sections keeps each once. */
  lemma {:induction false} JoinedKeeps(items: seq<SyntaxItem>, sections: seq<SyntaxSection>)
    ensures forall x :: x in Joined(items, sections) <==> x in items && x.section in sections
    ensures Distinct(sections) ==> Joined(items, sections) == Listed(items, sections)
  {
    if items != [] {
      var prefix, x := items[..|items| - 1], items[|items| - 1];
      JoinedKeeps(prefix, sections);
      OccurrencesIn(sections, x.section);
      assert items == prefix + [x];
      if Distinct(sections) {
        if x.section in sections {
          assert Copies(x, 1) == [x];
        }
      }
    }
  }

  /** The items whose section is in `sections`, in order. */
  function Listed(items: seq<SyntaxItem>, sections: seq<SyntaxSection>): (r: seq<SyntaxItem>)
  {
    if items == [] then []
    else
      var x := items[|items| - 1];
      Listed(items[..|items| - 1], sections) + (if x.section in sections then [x] else [])
  }

  /** The sections listed when none are given: all but the general categories and the named blocks. */
  const DefaultSections: seq<SyntaxSection> := [
    SyntaxSection.None, AlternationConstructs, Anchors, BackreferenceConstructs, CharacterClasses,
    CharacterEscapes, GroupingConstructs, Miscellaneous, Options, Quantifiers, Substitutions]

  /** The items the command lists, before ordering. */
  function Selected(items: seq<SyntaxItem>, filter: string, sections: seq<SyntaxSection>): (r: seq<SyntaxItem>)
    ensures forall x :: x in r ==> x in items && Matches(x, filter)
    ensures sections == [] ==> forall x :: x in r ==> x.section != GeneralCategories && x.section != NamedBlocks
  {
    var kept := Filtered(items, filter);
    JoinedKeeps(kept, sections);
    ListedKeeps(kept, DefaultSections);
    if sections != [] then Joined(kept, sections) else Listed(kept, DefaultSections)
  }

  lemma SelectedKeeps(items: seq<SyntaxItem>, filter: string, sections: seq<SyntaxSection>)
    ensures forall x :: x in Selected(items, filter, sections) <==>
      && x in items && Matches(x, filter)
      && (if sections != [] then x.section in sections else x.section != GeneralCategories && x.section != NamedBlocks)
  {
    JoinedKeeps(Filtered(items, filter), sections);
    ListedKeeps(Filtered(items, filter), DefaultSections);
    forall x: SyntaxItem ensures x.section in DefaultSections <==> x.section != GeneralCategories && x.section != NamedBlocks {
      AllSectionsInOrder();
    }
  }

  lemma {:induction false} ListedKeeps(items: seq<SyntaxItem>, sections: seq<SyntaxSection>)
    ensures forall x :: x in Listed(items, sections) <==> x in items && x.section in sections
  {
    if items != [] {
      ListedKeeps(items[..|items| - 1], sections);
      assert items == items[..|items| - 1] + [items[|items| - 1]];
    }
  }

  /** The items of section `s`, in order: one group of GroupBy. */
  function InSection(items: seq<SyntaxItem>, s: SyntaxSection): (r: seq<SyntaxItem>)
    ensures |r| <= |items|
  {
    if items == [] then []
    else
      var x := items[|items| - 1];
      InSection(items[..|items| - 1], s) + (if x.section == s then [x] else [])
  }

  /** The groups of the given keys, concatenated in the order of the keys. */
  function Grouped(items: seq<SyntaxItem>, keys: seq<SyntaxSection>): seq<SyntaxItem>
  {
    if keys == [] then [] else InSection(items, keys[0]) + Grouped(items, keys[1..])
  }

  /** The sections in order of first occurrence, without repeats. */
  function FirstOccurrences(sections: seq<SyntaxSection>): (r: seq<SyntaxSection>)
    ensures Distinct(r)
    ensures forall s :: s in r <==> s in sections
  {
    if sections == [] then []
    else
      var prefix := FirstOccurrences(sections[..|sections| - 1]);
      var s := sections[|sections| - 1];
      assert sections == sections[..|sections| - 1] + [s];
      if s in prefix then prefix else prefix + [s]
  }

  /**
   * The order of the listing: groups by section, ordered by the section's
   * first position in `sections` when sections are given, else by the
   * section's enum value, flattened.
   */
  function Arranged(items: seq<SyntaxItem>, sections: seq<SyntaxSection>): (r: seq<SyntaxItem>)
    ensures forall x :: x in r <==> x in items && x.section in OrderKeys(sections)
  {
    GroupedIn(items, OrderKeys(sections));
    Grouped(items, OrderKeys(sections))
  }

  /** The position of `s` in `keys` (IndexOf). */
  function Rank(keys: seq<SyntaxSection>, s: SyntaxSection): nat
    requires s in keys
  {
    if keys[0] == s then 0 else 1 + Rank(keys[1..], s)
  }

  lemma {:induction false} GroupedIn(items: seq<SyntaxItem>, keys: seq<SyntaxSection>)
    ensures forall x :: x in Grouped(items, keys) <==> x in items && x.section in keys
  {
    if keys != [] {
      GroupedIn(items, keys[1..]);
      InSectionIn(items, keys[0]);
      assert keys == [keys[0]] + keys[1..];
    }
  }

  lemma {:induction false} InSectionIn(items: seq<SyntaxItem>, s: SyntaxSection)
    ensures forall x :: x in InSection(items, s) <==> x in items && x.section == s
  {
    if items != [] {
      InSectionIn(items[..|items| - 1], s);
      assert items == items[..|items| - 1] + [items[|items| - 1]];
    }
  }

  lemma {:induction false} InSectionNone(items: seq<SyntaxItem>, s: SyntaxSection)
    requires forall x :: x in items ==> x.section != s
    ensures InSection(items, s) == []
  {
    if items != [] {
      assert items[|items| - 1] in items;
      InSectionNone(items[..|items| - 1], s);
    }
  }

  lemma {:induction false} InSectionCount(items: seq<SyntaxItem>, s: SyntaxSection, x: SyntaxItem)
    ensures multiset(InSection(items, s))[x] == if x.section == s then multiset(items)[x] else 0
  {
    if items != [] {
      var prefix := items[..|items| - 1];
      InSectionCount(prefix, s, x);
      assert items == prefix + [items[|items| - 1]];
    }
  }

  lemma {:induction false} GroupedCount(items: seq<SyntaxItem>, keys: seq<SyntaxSection>, x: SyntaxItem)
    requires Distinct(keys)
    ensures multiset(Grouped(items, keys))[x] == if x.section in keys then multiset(items)[x] else 0
  {
    if keys != [] {
      InSectionCount(items, keys[0], x);
      GroupedCount(items, keys[1..], x);
      assert keys == [keys[0]] + keys[1..];
      if x.section == keys[0] {
        assert x.section !in keys[1..] by {
          forall j | 1 <= j < |keys| ensures keys[j] != keys[0] {
          }
        }
      }
    }
  }

  /** With distinct keys that cover every item's section, the groups hold every item exactly as often as before. */
  lemma GroupedPermutation(items: seq<SyntaxItem>, keys: seq<SyntaxSection>)
    requires Distinct(keys)
    requires forall x :: x in items ==> x.section in keys
    ensures multiset(Grouped(items, keys)) == multiset(items)
  {
    forall x: SyntaxItem ensures multiset(Grouped(items, keys))[x] == multiset(items)[x] {
      GroupedCount(items, keys, x);
    }
  }

  lemma {:induction false} RankTail(keys: seq<SyntaxSection>, s: SyntaxSection)
    requires |keys| > 0 && s in keys[1..] && s != keys[0]
    ensures Rank(keys, s) == 1 + Rank(keys[1..], s)
  {
  }

  /** Every item's section is a key, and the items come in the order of their sections' ranks. */
  predicate SortedByRank(r: seq<SyntaxItem>, keys: seq<SyntaxSection>)
  {
    forall i, j :: 0 <= i < j < |r| ==>
      r[i].section in keys && r[j].section in keys && Rank(keys, r[i].section) <= Rank(keys, r[j].section)
  }

  /** The groups come in the order of the keys. */
  lemma {:induction false} GroupedSorted(items: seq<SyntaxItem>, keys: seq<SyntaxSection>)
    requires Distinct(keys)
    ensures SortedByRank(Grouped(items, keys), keys)
  {
    if keys != [] {
      var a, b := InSection(items, keys[0]), Grouped(items, keys[1..]);
      GroupedSorted(items, keys[1..]);
      GroupedIn(items, keys[1..]);
      InSectionIn(items, keys[0]);
      var r := Grouped(items, keys);
      assert r == a + b;
      forall i | |a| <= i < |r|
        ensures r[i] == b[i - |a|] && r[i].section in keys[1..] && r[i].section != keys[0]
        ensures Rank(keys, r[i].section) == 1 + Rank(keys[1..], r[i].section)
      {
        assert b[i - |a|] in b;
        var s := r[i].section;
        assert s != keys[0] by {
          var m :| 0 <= m < |keys[1..]| && keys[1..][m] == s;
          assert keys[m + 1] == s;
        }
        RankTail(keys, s);
      }
      forall i, j | 0 <= i < j < |r|
        ensures r[i].section in keys && r[j].section in keys && Rank(keys, r[i].section) <= Rank(keys, r[j].section)
      {
        if i < |a| {
          assert r[i] in a;
          if j < |a| {
            assert r[j] in a;
          }
        } else {
          assert SortedByRank(b, keys[1..]);
          assert b[i - |a|].section in keys[1..];
        }
      }
    }
  }

  lemma {:induction false} InSectionAppend(a: seq<SyntaxItem>, b: seq<SyntaxItem>, s: SyntaxSection)
    ensures InSection(a + b, s) == InSection(a, s) + InSection(b, s)
    decreases |b|
  {
    if b == [] {
      assert a + b == a;
    } else {
      var b', y := b[..|b| - 1], b[|b| - 1];
      var tail := if y.section == s then [y] else [];
      InSectionAppend(a, b', s);
      assert (a + b)[..|a + b| - 1] == a + b' && (a + b)[|a + b| - 1] == y;
      assert InSection(a + b, s) == InSection(a + b', s) + tail;
      assert InSection(b, s) == InSection(b', s) + tail;
    }
  }

  lemma {:induction false} InSectionTwice(items: seq<SyntaxItem>, k: SyntaxSection, s: SyntaxSection)
    ensures InSection(InSection(items, k), s) == if k == s then InSection(items, s) else []
  {
    if items != [] {
      var prefix, x := items[..|items| - 1], items[|items| - 1];
      var own := if x.section == k then [x] else [];
      var kept := InSection(prefix, k);
      InSectionTwice(prefix, k, s);
      assert InSection(InSection(items, k), s) == InSection(kept, s) + InSection(own, s) by {
        assert InSection(items, k) == kept + own;
        InSectionAppend(kept, own, s);
      }
      if k == s {
        assert InSection(own, s) == own by {
          assert [x][..0] == [];
        }
        assert InSection(items, s) == InSection(prefix, s) + own;
      } else {
        assert InSection(own, s) == [] by {
          assert [x][..0] == [];
        }
      }
    }
  }

  /** Each group keeps the order its items had. */
  lemma {:induction false} GroupedStable(items: seq<SyntaxItem>, keys: seq<SyntaxSection>, s: SyntaxSection)
    requires Distinct(keys)
    ensures InSection(Grouped(items, keys), s) == if s in keys then InSection(items, s) else []
  {
    if keys != [] {
      var a, b := InSection(items, keys[0]), Grouped(items, keys[1..]);
      assert Grouped(items, keys) == a + b;
      GroupedStable(items, keys[1..], s);
      InSectionAppend(a, b, s);
      InSectionTwice(items, keys[0], s);
      if s == keys[0] {
        assert s !in keys[1..] by {
          forall j | 1 <= j < |keys| ensures keys[j] != keys[0] {
          }
        }
        assert InSection(b, s) == [];
        assert InSection(a + b, s) == InSection(items, s) + [];
      } else {
        assert s in keys <==> s in keys[1..] by {
          assert keys == [keys[0]] + keys[1..];
        }
        assert InSection(a, s) == [];
        assert InSection(a + b, s) == [] + InSection(b, s);
      }
    }
  }

  /** The keys the listing orders by: the given sections by first position, else every section by enum value. */
  function OrderKeys(sections: seq<SyntaxSection>): (keys: seq<SyntaxSection>)
    ensures Distinct(keys)
  {
    AllSectionsInOrder();
    if sections != [] then FirstOccurrences(sections) else AllSections
  }

  lemma SelectedInKeys(items: seq<SyntaxItem>, filter: string, sections: seq<SyntaxSection>)
    ensures forall x :: x in Selected(items, filter, sections) ==> x.section in OrderKeys(sections)
  {
    var kept := Filtered(items, filter);
    if sections != [] {
      JoinedKeeps(kept, sections);
    } else {
      ListedKeeps(kept, DefaultSections);
      AllSectionsInOrder();
    }
  }

  /** With distinct keys covering every section present, grouping is a stable sort by rank. */
  lemma GroupedOrder(items: seq<SyntaxItem>, keys: seq<SyntaxSection>)
    requires Distinct(keys)
    requires forall x :: x in items ==> x.section in keys
    ensures multiset(Grouped(items, keys)) == multiset(items)
    ensures SortedByRank(Grouped(items, keys), keys)
    ensures forall s :: InSection(Grouped(items, keys), s) == InSection(items, s)
  {
    GroupedPermutation(items, keys);
    GroupedSorted(items, keys);
    forall s ensures InSection(Grouped(items, keys), s) == InSection(items, s) {
      GroupedStable(items, keys, s);
      if s !in keys {
        InSectionNone(items, s);
      }
    }
  }

  /**
   * The listing order: every selected item exactly as often as selected, sorted
   * by the rank of its section, and each section's items in their order in
   * the table.
   */
  lemma ArrangedOrder(items: seq<SyntaxItem>, filter: string, sections: seq<SyntaxSection>)
    ensures var selected := Selected(items, filter, sections);
      var r := Arranged(selected, sections);
      && multiset(r) == multiset(selected)
      && SortedByRank(r, OrderKeys(sections))
      && (forall s :: InSection(r, s) == InSection(selected, s))
  {
    SelectedInKeys(items, filter, sections);
    GroupedOrder(Selected(items, filter, sections), OrderKeys(sections));
  }

  /** In distinct keys, the rank of the key at `k` is `k`. */
  lemma {:induction false} RankAt(keys: seq<SyntaxSection>, k: nat)
    requires Distinct(keys) && k < |keys|
    ensures Rank(keys, keys[k]) == k
  {
    if k > 0 {
      assert keys[k] == keys[1..][k - 1];
      RankAt(keys[1..], k - 1);
    }
  }

  /** Without sections, the rank is the section's enum value. */
  lemma RankIsOrdinal(s: SyntaxSection)
    ensures Rank(AllSections, s) == Ordinal(s)
  {
    AllSectionsInOrder();
    assert AllSections[Ordinal(s)] == s;
    RankAt(AllSections, Ordinal(s));
  }

  // ---------------------------------------------------------------- the listing

  /** The length of an item's text as shown, without its `%`. */
  function Visible(item: SyntaxItem): int
  {
    |item.text| - Text.CountChar(item.text, '%')
  }

  /** The column width: the longest shown text. */
  function Width(list: seq<SyntaxItem>): (w: int)
    requires |list| > 0
    ensures forall x :: x in list ==> Visible(x) <= w
    ensures exists x :: x in list && Visible(x) == w
  {
    var x := list[|list| - 1];
    if |list| == 1 then Visible(x)
    else
      var w := Width(list[..|list| - 1]);
      assert forall y :: y in list ==> y in list[..|list| - 1] || y == x;
      if Visible(x) > w then Visible(x) else w
  }

  /** An even number of `%`, so that the scanner's calls stay in range. */
  predicate EvenMarkup(text: string)
  {
    Text.CountChar(text, '%') % 2 == 0
  }

  /** Every item's markup is even: the items can be written without throwing. */
  predicate AllEven(items: seq<SyntaxItem>)
  {
    forall x :: x in items ==> EvenMarkup(x.text)
  }

  /** Every item of the section has even markup. */
  predicate SectionEven(list: seq<SyntaxItem>, key: SyntaxSection)
  {
    forall x :: x in list && x.section == key ==> EvenMarkup(x.text)
  }

  /** Every item of the given sections has even markup. */
  predicate KeysEven(list: seq<SyntaxItem>, keys: seq<SyntaxSection>)
  {
    forall x :: x in list && x.section in keys ==> EvenMarkup(x.text)
  }

  lemma KeysEvenStep(list: seq<SyntaxItem>, keys: seq<SyntaxSection>, g: int)
    requires 0 <= g < |keys|
    requires KeysEven(list, keys[..g]) && SectionEven(list, keys[g])
    ensures KeysEven(list, keys[..g + 1])
  {
    assert keys[..g + 1] == keys[..g] + [keys[g]];
  }

  lemma AllEvenStep(group: seq<SyntaxItem>, k: int)
    requires 0 <= k < |group|
    requires AllEven(group[..k]) && EvenMarkup(group[k].text)
    ensures AllEven(group[..k + 1])
  {
    assert group[..k + 1] == group[..k] + [group[k]];
  }

  lemma LinesStep(start: string, t: string, group: seq<SyntaxItem>, k: int, width: int)
    requires 0 <= k < |group|
    requires t == start + Lines(group[..k], width) + ItemLine(group[k], width)
    ensures t == start + Lines(group[..k + 1], width)
  {
    assert group[..k + 1][..k] == group[..k];
    Text.AppendAssoc(start, Lines(group[..k], width), ItemLine(group[k], width));
  }

  lemma ListingStep(start: string, t: string, list: seq<SyntaxItem>, keys: seq<SyntaxSection>, g: int, width: int)
    requires 0 <= g < |keys|
    requires t == start + Listing(list, keys[..g], width) + Block(list, keys[g], width)
    ensures t == start + Listing(list, keys[..g + 1], width)
  {
    assert keys[..g + 1][..g] == keys[..g];
    Text.AppendAssoc(start, Listing(list, keys[..g], width), Block(list, keys[g], width));
  }

  lemma KeysEvenAll(list: seq<SyntaxItem>, keys: seq<SyntaxSection>)
    requires forall x :: x in list ==> x.section in keys
    ensures KeysEven(list, keys) <==> AllEven(list)
  {
  }

  /** The sections of the list in order of first occurrence: the groups GroupBy forms. */
  function SectionKeys(list: seq<SyntaxItem>): (keys: seq<SyntaxSection>)
    ensures Distinct(keys)
    ensures forall x :: x in list ==> x.section in keys
  {
    if list == [] then []
    else
      var prefix := list[..|list| - 1];
      var keys := SectionKeys(prefix);
      var s := list[|list| - 1].section;
      assert forall x :: x in list ==> x in prefix || x == list[|list| - 1];
      if s in keys then keys else keys + [s]
  }

  /** One item's line: its text without the `%`, padded to the width, then its description. */
  function ItemLine(item: SyntaxItem, width: int): string
  {
    " " + Text.Without(item.text, '%') + Text.Spaces(width - Visible(item)) + " " + item.description + Text.NewLine
  }

  /** Writing the pieces of a line one after another appends the line. */
  lemma ItemLineWritten(before: string, item: SyntaxItem, width: int)
    ensures before + " " + Text.Without(item.text, '%') + Text.Spaces(width - Visible(item)) + " " + item.description + Text.NewLine
      == before + ItemLine(item, width)
  {
    Text.Prepend6(before, " ", Text.Without(item.text, '%'), Text.Spaces(width - Visible(item)), " ", item.description, Text.NewLine);
  }

  function Lines(items: seq<SyntaxItem>, width: int): string
  {
    if items == [] then "" else Lines(items[..|items| - 1], width) + ItemLine(items[|items| - 1], width)
  }

  /** A group: an empty line, the section's heading, and the lines of its items. */
  function Block(list: seq<SyntaxItem>, key: SyntaxSection, width: int): string
  {
    Text.NewLine + Heading(key) + Text.NewLine + Lines(InSection(list, key), width)
  }

  lemma BlockWritten(before: string, list: seq<SyntaxItem>, key: SyntaxSection, width: int)
    ensures before + Text.NewLine + Heading(key) + Text.NewLine + Lines(InSection(list, key), width)
      == before + Block(list, key, width)
  {
    Text.Prepend4(before, Text.NewLine, Heading(key), Text.NewLine, Lines(InSection(list, key), width));
  }

  function Listing(list: seq<SyntaxItem>, keys: seq<SyntaxSection>, width: int): string
  {
    if keys == [] then "" else Listing(list, keys[..|keys| - 1], width) + Block(list, keys[|keys| - 1], width)
  }

  /**
   * The padding is never negative, and every description starts in the same
   * column: two past the width.
   */
  lemma ItemAligned(list: seq<SyntaxItem>, x: SyntaxItem)
    requires x in list
    ensures Width(list) - Visible(x) >= 0
    ensures var line := ItemLine(x, Width(list));
      && |line| == Width(list) + 2 + |x.description| + |Text.NewLine|
      && line[Width(list) + 2..Width(list) + 2 + |x.description|] == x.description
  {
    var w := Width(list);
    var p := " " + Text.Without(x.text, '%') + Text.Spaces(w - Visible(x)) + " ";
    assert |p| == w + 2;
    assert ItemLine(x, w) == p + x.description + Text.NewLine;
  }

  /** The scanner's calls performed on the sink: Write(text, start, count) for each, throwing at the first out of range. */
  method WriteMarkup(sink: Text.TextSink, text: string) returns (ok: bool)
    modifies sink
    ensures ok <==> EvenMarkup(text)
    ensures ok ==> sink.text == old(sink.text) + Text.Without(text, '%')
    ensures old(sink.text) <= sink.text
  {
    var segments := Scan(text);
    ok := WriteSegments(sink, text, segments);
    MarkupWritten(text, segments, ok);
  }

  /** Scanning tells the parity of `%`: all calls are in range exactly when it is even. */
  lemma MarkupWritten(text: string, segments: seq<Segment>, ok: bool)
    requires Text.CountChar(text, '%') % 2 == 0 ==> Alternating(text, segments) && Tiles(text, |text|, segments)
    requires Text.CountChar(text, '%') % 2 == 1 ==>
      && |segments| > 0
      && Alternating(text, segments[..|segments| - 1])
      && segments[|segments| - 1] == Segment(|text| + 1, -1, true)
    requires ok <==> forall k :: 0 <= k < |segments| ==> InRange(text, segments[k])
    ensures ok <==> EvenMarkup(text)
    ensures ok ==> Output(text, segments) == Text.Without(text, '%')
  {
    if EvenMarkup(text) {
      TilesOutput(text, |text|, segments);
      assert text[..|text|] == text;
    } else {
      assert !InRange(text, segments[|segments| - 1]);
    }
  }

  /** The calls in order, up to the first that is out of range. */
  method WriteSegments(sink: Text.TextSink, text: string, segments: seq<Segment>) returns (ok: bool)
    modifies sink
    ensures ok <==> forall k :: 0 <= k < |segments| ==> InRange(text, segments[k])
    ensures ok ==> sink.text == old(sink.text) + Output(text, segments)
    ensures old(sink.text) <= sink.text
  {
    var k := 0;
    while k < |segments|
      invariant 0 <= k <= |segments|
      invariant forall i :: 0 <= i < k ==> InRange(text, segments[i])
      invariant sink.text == old(sink.text) + Output(text, segments[..k])
    {
      var g := segments[k];
      if !InRange(text, g) {
        return false;
      }
      sink.Write(text[g.start..End(g)]);
      OutputStep(old(sink.text), sink.text, text, segments, k);
      k := k + 1;
    }
    assert segments[..k] == segments;
    return true;
  }

  lemma OutputStep(start: string, t: string, text: string, segments: seq<Segment>, k: int)
    requires 0 <= k < |segments|
    requires forall i :: 0 <= i < k ==> InRange(text, segments[i])
    requires InRange(text, segments[k])
    requires t == start + Output(text, segments[..k]) + text[segments[k].start..End(segments[k])]
    ensures t == start + Output(text, segments[..k + 1])
  {
    assert segments[..k + 1][..k] == segments[..k];
    Text.AppendAssoc(start, Output(text, segments[..k]), text[segments[k].start..End(segments[k])]);
  }

  /**
   * The listing of the syntax table: select and order the items, then write a
   * block per section, or "No syntax found" when nothing is selected. An item
   * with an odd number of `%` makes the command throw partway.
   */
  method ListSyntax(sink: Text.TextSink, items: seq<SyntaxItem>, filter: string, sections: seq<SyntaxSection>)
    returns (result: ListResult)
    modifies sink
    ensures var list := Arranged(Selected(items, filter, sections), sections);
      && (result == NoMatch <==> list == [])
      && (result == Threw <==> !AllEven(list))
      && (result == NoMatch ==> sink.text == old(sink.text) + "No syntax found" + Text.NewLine)
      && (result == Success ==> sink.text == old(sink.text) + Listing(list, SectionKeys(list), Width(list)))
      && old(sink.text) <= sink.text
  {
    var list := Arranged(Selected(items, filter, sections), sections);
    result := WriteListing(sink, list);
  }

  /** The listing of the selected, ordered items. */
  method WriteListing(sink: Text.TextSink, list: seq<SyntaxItem>) returns (result: ListResult)
    modifies sink
    ensures result == NoMatch <==> list == []
    ensures result == Threw <==> !AllEven(list)
    ensures result == NoMatch ==> sink.text == old(sink.text) + "No syntax found" + Text.NewLine
    ensures result == Success ==> sink.text == old(sink.text) + Listing(list, SectionKeys(list), Width(list))
    ensures old(sink.text) <= sink.text
  {
    if |list| == 0 {
      sink.WriteLine("No syntax found");
      return NoMatch;
    }
    var width := Width(list);
    var keys := SectionKeys(list);
    var ok := WriteGroups(sink, list, keys, width);
    KeysEvenAll(list, keys);
    result := if ok then Success else Threw;
  }

  /** A block per section in turn, stopping at the first that throws. */
  method WriteGroups(sink: Text.TextSink, list: seq<SyntaxItem>, keys: seq<SyntaxSection>, width: int) returns (ok: bool)
    modifies sink
    ensures ok <==> KeysEven(list, keys)
    ensures ok ==> sink.text == old(sink.text) + Listing(list, keys, width)
    ensures old(sink.text) <= sink.text
  {
    var g := 0;
    while g < |keys|
      invariant 0 <= g <= |keys|
      invariant sink.text == old(sink.text) + Listing(list, keys[..g], width)
      invariant KeysEven(list, keys[..g])
    {
      ok := WriteGroup(sink, list, keys[g], width);
      if !ok {
        assert keys[g] in keys;
        return;
      }
      ListingStep(old(sink.text), sink.text, list, keys, g, width);
      KeysEvenStep(list, keys, g);
      g := g + 1;
    }
    assert keys[..g] == keys;
    return true;
  }

  /** One item's line; the padding is a run of spaces (Write(' ', count)). */
  method WriteItem(sink: Text.TextSink, item: SyntaxItem, width: int) returns (ok: bool)
    modifies sink
    ensures ok <==> EvenMarkup(item.text)
    ensures ok ==> sink.text == old(sink.text) + ItemLine(item, width)
    ensures old(sink.text) <= sink.text
  {
    sink.Write(" ");
    ok := WriteMarkup(sink, item.text);
    if !ok {
      return;
    }
    sink.Write(Text.Spaces(width - Visible(item)));
    sink.Write(" ");
    sink.WriteLine(item.description);
    ItemLineWritten(old(sink.text), item, width);
  }

  /** One group: an empty line, the section's heading, and a line per item of the section. */
  method WriteGroup(sink: Text.TextSink, list: seq<SyntaxItem>, key: SyntaxSection, width: int) returns (ok: bool)
    modifies sink
    ensures ok <==> SectionEven(list, key)
    ensures ok ==> sink.text == old(sink.text) + Block(list, key, width)
    ensures old(sink.text) <= sink.text
  {
    sink.WriteLine("");
    sink.WriteLine(Heading(key));
    ghost var headed := sink.text;
    assert old(sink.text) <= headed;
    var group := InSection(list, key);
    SectionEvenItems(list, key);
    ok := WriteItems(sink, group, width);
    if ok {
      GroupWritten(old(sink.text), sink.text, list, key, width);
    }
  }

  lemma GroupWritten(before: string, t: string, list: seq<SyntaxItem>, key: SyntaxSection, width: int)
    requires t == before + "" + Text.NewLine + Heading(key) + Text.NewLine + Lines(InSection(list, key), width)
    ensures t == before + Block(list, key, width)
  {
    Text.AppendEmpty(before);
    BlockWritten(before, list, key, width);
  }

  lemma SectionEvenItems(list: seq<SyntaxItem>, key: SyntaxSection)
    ensures SectionEven(list, key) <==> AllEven(InSection(list, key))
  {
    InSectionIn(list, key);
  }

  /** A line per item, stopping at the first item whose markup throws. */
  method WriteItems(sink: Text.TextSink, group: seq<SyntaxItem>, width: int) returns (ok: bool)
    modifies sink
    ensures ok <==> AllEven(group)
    ensures ok ==> sink.text == old(sink.text) + Lines(group, width)
    ensures old(sink.text) <= sink.text
  {
    var k := 0;
    while k < |group|
      invariant 0 <= k <= |group|
      invariant sink.text == old(sink.text) + Lines(group[..k], width)
      invariant AllEven(group[..k])
    {
      ok := WriteItem(sink, group[k], width);
      if !ok {
        assert group[k] in group;
        return;
      }
      LinesStep(old(sink.text), sink.text, group, k, width);
      AllEvenStep(group, k);
      k := k + 1;
    }
    assert group[..k] == group;
    return true;
  }

  // ---------------------------------------------------------------- a single character

  /** How the regex engine escapes the character (RegexEscape.GetEscapeMode). */
  datatype CharEscapeMode = Backslash | Bell | CarriageReturn | Escape | FormFeed | Linefeed | Tab | VerticalTab | None

  /**
   * What the regex engine says about the character: its escape mode, and
   * whether the character matches a pattern (Regex.IsMatch with the command's
   * options).
   */
  datatype Engine = Engine(escapeMode: CharEscapeMode, isMatch: string -> bool)

  /** A regex spelling of the character; a missing description is written as "-". */
  datatype PatternInfo = PatternInfo(pattern: string, section: SyntaxSection, description: Text.Option<string>)

  function Described(pattern: string, section: SyntaxSection, description: string): PatternInfo
  {
    PatternInfo(pattern, section, Text.Option.Some(description))
  }

  function Undescribed(pattern: string, section: SyntaxSection): PatternInfo
  {
    PatternInfo(pattern, section, Text.Option.None)
  }

  /** The character itself, escaped as the engine escapes it, and `\b` for a backspace inside a character group. */
  function EscapePatterns(code: nat, inCharGroup: bool, mode: CharEscapeMode): (r: seq<PatternInfo>)
    requires code <= 0xFF
    ensures forall p :: p in r ==> p.section == CharacterEscapes || p.section == SyntaxSection.None
  {
    var c := [code as char];
    var escaped :=
      match mode
      case Backslash => Described("\\" + c, CharacterEscapes, "Escaped character")
      case Bell => Undescribed("\\a", CharacterEscapes)
      case CarriageReturn => Undescribed("\\r", CharacterEscapes)
      case Escape => Undescribed("\\e", CharacterEscapes)
      case FormFeed => Undescribed("\\f", CharacterEscapes)
      case Linefeed => Undescribed("\\n", CharacterEscapes)
      case Tab => Undescribed("\\t", CharacterEscapes)
      case VerticalTab => Undescribed("\\v", CharacterEscapes)
      case None => Undescribed(c, SyntaxSection.None);
    [escaped] + if inCharGroup && code == 8 then [Described("\\b", CharacterEscapes, "Escaped character")] else []
  }

  /** One of `\d` and `\D`, of `\s` and `\S`, of `\w` and `\W`: the one the character matches. */
  function ClassPatterns(isMatch: string -> bool): (r: seq<PatternInfo>)
    ensures forall p :: p in r ==> p.section == CharacterClasses
  {
    [ if isMatch("\\d") then Described("\\d", CharacterClasses, "Digit character")
      else Described("\\D", CharacterClasses, "Non-digit character"),
      if isMatch("\\s") then Described("\\s", CharacterClasses, "Whitespace character")
      else Described("\\S", CharacterClasses, "Non-whitespace character"),
      if isMatch("\\w") then Described("\\w", CharacterClasses, "Word character")
      else Described("\\W", CharacterClasses, "Non-word character") ]
  }

  /** The Unicode property pattern of a category or block name. */
  function Property(name: string): string
  {
    "\\p{" + name + "}"
  }

  /** Every general category of the table the character is in, in table order. */
  function CategoryPatterns(table: seq<SyntaxItem>, isMatch: string -> bool): (r: seq<PatternInfo>)
    ensures forall p :: p in r ==> p.section == GeneralCategories
  {
    if table == [] then []
    else
      var item := table[|table| - 1];
      CategoryPatterns(table[..|table| - 1], isMatch)
        + if item.section == GeneralCategories && isMatch(Property(item.text))
          then [Described(Property(item.text), GeneralCategories, "Unicode category: " + item.description)]
          else []
  }

  /** The first named block of the table the character is in, if any: the search stops there. */
  function BlockPattern(table: seq<SyntaxItem>, isMatch: string -> bool): (r: seq<PatternInfo>)
    ensures |r| <= 1 && forall p :: p in r ==> p.section == NamedBlocks
  {
    if table == [] then []
    else if table[0].section == NamedBlocks && isMatch(Property(table[0].text))
    then [Described(Property(table[0].text), NamedBlocks, "Unicode block: " + table[0].description)]
    else BlockPattern(table[1..], isMatch)
  }

  /** `\c` with the `code`-th letter of the alphabet, as `base` spells it. */
  function ControlLetter(code: nat, base: char): char
    requires 1 <= code <= 26 && (base == 'a' || base == 'A')
  {
    (base as int + code - 1) as char
  }

  /** The numeric escapes of a code up to 0xFF: `\u`, `\x`, octal, and `\c` for the control characters 1 to 26. */
  function NumericEscapes(code: nat): (r: seq<PatternInfo>)
    requires code <= 0xFF
    ensures forall p :: p in r ==> p.section == CharacterEscapes
  {
    [ Described("\\u" + Text.HexString(code, 4), CharacterEscapes, "Unicode character (four hexadecimal digits)"),
      Described("\\x" + Text.HexString(code, 2), CharacterEscapes, "ASCII character (two hexadecimal digits)"),
      Described("\\" + Text.PadLeft(Text.Digits(code, 8), 2, '0'), CharacterEscapes, "ASCII character (two or three octal digits)") ]
    + if 0 < code <= 0x1A
      then [ Described("\\c" + [ControlLetter(code, 'a')], CharacterEscapes, "ASCII control character"),
             Described("\\c" + [ControlLetter(code, 'A')], CharacterEscapes, "ASCII control character") ]
      else []
  }

  /**
   * Every spelling of the character code, in the order the iterator yields them.
   * None is an anchor, and a code above 0xFF has no escape of its own and no
   * numeric escape: only classes, categories and a block.
   */
  function GetPatterns(code: nat, inCharGroup: bool, engine: Engine, table: seq<SyntaxItem>): (r: seq<PatternInfo>)
    ensures forall p :: p in r ==> SpellingSection(p.section)
    ensures code > 0xFF ==> forall p :: p in r ==> WideSection(p.section)
  {
    var escapes := if code <= 0xFF then EscapePatterns(code, inCharGroup, engine.escapeMode) else [];
    var classes, categories := ClassPatterns(engine.isMatch), CategoryPatterns(table, engine.isMatch);
    var block := BlockPattern(table, engine.isMatch);
    var numeric := if code <= 0xFF then NumericEscapes(code) else [];
    var r := escapes + classes + categories + block + numeric;
    SectionsAmong(escapes, classes, categories, block, numeric, SpellingSection);
    assert code > 0xFF ==> forall p :: p in r ==> WideSection(p.section) by {
      if code > 0xFF {
        SectionsAmong(escapes, classes, categories, block, numeric, WideSection);
      }
    }
    r
  }

  /** The sections a spelling of a character can lie in: never Anchors or the constructs. */
  predicate SpellingSection(s: SyntaxSection)
  {
    s == CharacterEscapes || s == SyntaxSection.None || WideSection(s)
  }

  /** The sections of the spellings of a code above 0xFF. */
  predicate WideSection(s: SyntaxSection)
  {
    s == CharacterClasses || s == GeneralCategories || s == NamedBlocks
  }

  /** The sections of five concatenated parts, when each part keeps to the allowed sections. */
  lemma SectionsAmong(a: seq<PatternInfo>, b: seq<PatternInfo>, c: seq<PatternInfo>, d: seq<PatternInfo>,
    e: seq<PatternInfo>, allowed: SyntaxSection -> bool)
    requires forall p :: p in a ==> allowed(p.section)
    requires forall p :: p in b ==> allowed(p.section)
    requires forall p :: p in c ==> allowed(p.section)
    requires forall p :: p in d ==> allowed(p.section)
    requires forall p :: p in e ==> allowed(p.section)
    ensures forall p :: p in a + b + c + d + e ==> allowed(p.section)
  {
  }

  /** The patterns of a section, in order. */
  function PatternsIn(patterns: seq<PatternInfo>, section: SyntaxSection): seq<PatternInfo>
  {
    if patterns == [] then []
    else
      PatternsIn(patterns[..|patterns| - 1], section)
        + if patterns[|patterns| - 1].section == section then [patterns[|patterns| - 1]] else []
  }


  // ---------------------------------------------------------------- properties of the spellings

  /** Some pattern of the section is spelled `pattern`. */
  predicate HasPattern(patterns: seq<PatternInfo>, section: SyntaxSection, pattern: string)
  {
    exists p :: p in patterns && p.section == section && p.pattern == pattern
  }

  lemma {:induction false} PatternsInKeeps(patterns: seq<PatternInfo>, section: SyntaxSection)
    ensures forall p :: p in PatternsIn(patterns, section) <==> p in patterns && p.section == section
  {
    if patterns != [] {
      var prefix := patterns[..|patterns| - 1];
      PatternsInKeeps(prefix, section);
      assert patterns == prefix + [patterns[|patterns| - 1]];
    }
  }

  lemma {:induction false} PatternsInAppend(a: seq<PatternInfo>, b: seq<PatternInfo>, section: SyntaxSection)
    ensures PatternsIn(a + b, section) == PatternsIn(a, section) + PatternsIn(b, section)
  {
    if b == [] {
      assert a + b == a;
    } else {
      var last := b[|b| - 1];
      var tail := if last.section == section then [last] else [];
      assert (a + b)[..|a + b| - 1] == a + b[..|b| - 1];
      assert (a + b)[|a + b| - 1] == last;
      assert PatternsIn(a + b, section) == PatternsIn(a + b[..|b| - 1], section) + tail;
      PatternsInAppend(a, b[..|b| - 1], section);
      Text.AppendAssoc(PatternsIn(a, section), PatternsIn(b[..|b| - 1], section), tail);
    }
  }

  /** A part whose patterns all lie in other sections contributes nothing to a section. */
  lemma {:induction false} PatternsInNone(patterns: seq<PatternInfo>, section: SyntaxSection)
    requires forall p :: p in patterns ==> p.section != section
    ensures PatternsIn(patterns, section) == []
  {
    if patterns != [] {
      var prefix := patterns[..|patterns| - 1];
      assert patterns[|patterns| - 1] in patterns;
      assert forall p :: p in prefix ==> p in patterns;
      PatternsInNone(prefix, section);
    }
  }

  /** Where each part of the pattern list comes from. */
  lemma {:induction false} CategoryPatternsKeep(table: seq<SyntaxItem>, isMatch: string -> bool)
    ensures forall p :: p in CategoryPatterns(table, isMatch) <==>
      exists item :: item in table && item.section == GeneralCategories && isMatch(Property(item.text))
        && p == Described(Property(item.text), GeneralCategories, "Unicode category: " + item.description)
  {
    if table != [] {
      var prefix := table[..|table| - 1];
      CategoryPatternsKeep(prefix, isMatch);
      assert table == prefix + [table[|table| - 1]];
    }
  }

  /** `k` is the first named block of the table that the character is in. */
  predicate FirstBlock(table: seq<SyntaxItem>, isMatch: string -> bool, k: int)
  {
    && 0 <= k < |table|
    && table[k].section == NamedBlocks && isMatch(Property(table[k].text))
    && forall j :: 0 <= j < k ==> !(table[j].section == NamedBlocks && isMatch(Property(table[j].text)))
  }

  /** At most one block is reported: the first one the character is in, or none when it is in none. */
  lemma {:induction false} BlockPatternFirst(table: seq<SyntaxItem>, isMatch: string -> bool)
    ensures |BlockPattern(table, isMatch)| <= 1
    ensures BlockPattern(table, isMatch) == [] <==>
      forall j :: 0 <= j < |table| ==> !(table[j].section == NamedBlocks && isMatch(Property(table[j].text)))
    ensures BlockPattern(table, isMatch) != [] ==> exists k :: (FirstBlock(table, isMatch, k)
      && BlockPattern(table, isMatch) == [Described(Property(table[k].text), NamedBlocks, "Unicode block: " + table[k].description)])
  {
    if table != [] && !(table[0].section == NamedBlocks && isMatch(Property(table[0].text))) {
      var rest := table[1..];
      BlockPatternFirst(rest, isMatch);
      if BlockPattern(rest, isMatch) != [] {
        var k :| FirstBlock(rest, isMatch, k)
          && BlockPattern(rest, isMatch) == [Described(Property(rest[k].text), NamedBlocks, "Unicode block: " + rest[k].description)];
        assert FirstBlock(table, isMatch, k + 1);
      }
      forall j | 0 <= j < |table| && table[j].section == NamedBlocks && isMatch(Property(table[j].text))
        ensures BlockPattern(rest, isMatch) != []
      {
        assert rest[j - 1] == table[j];
      }
    } else if table != [] {
      assert FirstBlock(table, isMatch, 0);
    }
  }

  /** The class patterns: exactly one of each pair, the positive one when the character matches it. */
  lemma ClassPairs(isMatch: string -> bool)
    ensures |ClassPatterns(isMatch)| == 3
    ensures HasPattern(ClassPatterns(isMatch), CharacterClasses, "\\d") <==> isMatch("\\d")
    ensures HasPattern(ClassPatterns(isMatch), CharacterClasses, "\\D") <==> !isMatch("\\d")
    ensures HasPattern(ClassPatterns(isMatch), CharacterClasses, "\\s") <==> isMatch("\\s")
    ensures HasPattern(ClassPatterns(isMatch), CharacterClasses, "\\S") <==> !isMatch("\\s")
    ensures HasPattern(ClassPatterns(isMatch), CharacterClasses, "\\w") <==> isMatch("\\w")
    ensures HasPattern(ClassPatterns(isMatch), CharacterClasses, "\\W") <==> !isMatch("\\w")
  {
    var r := ClassPatterns(isMatch);
    ClassPair(r, 0, isMatch, 'd', 'D');
    ClassPair(r, 1, isMatch, 's', 'S');
    ClassPair(r, 2, isMatch, 'w', 'W');
  }

  /** One pair of class patterns: `r[k]` is the only one spelled with either letter. */
  lemma ClassPair(r: seq<PatternInfo>, k: nat, isMatch: string -> bool, pos: char, neg: char)
    requires pos != neg
    requires forall i :: 0 <= i < |r| ==> |r[i].pattern| == 2 && r[i].section == CharacterClasses
    requires forall i :: 0 <= i < |r| && i != k ==> r[i].pattern[1] != pos && r[i].pattern[1] != neg
    requires k < |r| && r[k].pattern == if isMatch(['\\', pos]) then ['\\', pos] else ['\\', neg]
    ensures HasPattern(r, CharacterClasses, ['\\', pos]) <==> isMatch(['\\', pos])
    ensures HasPattern(r, CharacterClasses, ['\\', neg]) <==> !isMatch(['\\', pos])
  {
    if HasPattern(r, CharacterClasses, ['\\', neg]) {
      var p :| p in r && p.section == CharacterClasses && p.pattern == ['\\', neg];
      var i :| 0 <= i < |r| && r[i] == p;
      assert p.pattern[1] == neg;
    }
    if HasPattern(r, CharacterClasses, ['\\', pos]) {
      var p :| p in r && p.section == CharacterClasses && p.pattern == ['\\', pos];
      var i :| 0 <= i < |r| && r[i] == p;
      assert p.pattern[1] == pos;
    }
  }

  /** Every pattern lies in the section: nothing is dropped. */
  lemma {:induction false} PatternsInAll(patterns: seq<PatternInfo>, section: SyntaxSection)
    requires forall p :: p in patterns ==> p.section == section
    ensures PatternsIn(patterns, section) == patterns
  {
    if patterns != [] {
      var prefix, last := patterns[..|patterns| - 1], patterns[|patterns| - 1];
      assert last in patterns;
      forall p | p in prefix
        ensures p.section == section
      {
        var i :| 0 <= i < |prefix| && prefix[i] == p;
        assert patterns[i] == p;
      }
      PatternsInAll(prefix, section);
      PatternsInLast(patterns, section);
    }
  }

  lemma PatternsInLast(patterns: seq<PatternInfo>, section: SyntaxSection)
    requires patterns != [] && patterns[|patterns| - 1].section == section
    requires PatternsIn(patterns[..|patterns| - 1], section) == patterns[..|patterns| - 1]
    ensures PatternsIn(patterns, section) == patterns
  {
    assert patterns == patterns[..|patterns| - 1] + [patterns[|patterns| - 1]];
  }

  /** The patterns of a section of five parts are those of each part in turn. */
  lemma PatternsInFive(a: seq<PatternInfo>, b: seq<PatternInfo>, c: seq<PatternInfo>, d: seq<PatternInfo>, e: seq<PatternInfo>,
    section: SyntaxSection)
    ensures PatternsIn(a + b + c + d + e, section)
      == PatternsIn(a, section) + PatternsIn(b, section) + PatternsIn(c, section) + PatternsIn(d, section) + PatternsIn(e, section)
  {
    PatternsInAppend(a, b, section);
    PatternsInAppend(a + b, c, section);
    PatternsInAppend(a + b + c, d, section);
    PatternsInAppend(a + b + c + d, e, section);
  }

  /** When only the second of five parts has patterns of a section, the section's patterns are that part. */
  lemma OnlySecond(a: seq<PatternInfo>, b: seq<PatternInfo>, c: seq<PatternInfo>, d: seq<PatternInfo>, e: seq<PatternInfo>,
    section: SyntaxSection)
    requires forall p :: p in b ==> p.section == section
    requires forall p :: p in a || p in c || p in d || p in e ==> p.section != section
    ensures PatternsIn(a + b + c + d + e, section) == b
  {
    PatternsInFive(a, b, c, d, e, section);
    PatternsInAll(b, section);
    PatternsInNone(a, section);
    PatternsInNone(c, section);
    PatternsInNone(d, section);
    PatternsInNone(e, section);
  }

  /** When only the fourth of five parts has patterns of a section, the section's patterns are that part. */
  lemma OnlyFourth(a: seq<PatternInfo>, b: seq<PatternInfo>, c: seq<PatternInfo>, d: seq<PatternInfo>, e: seq<PatternInfo>,
    section: SyntaxSection)
    requires forall p :: p in d ==> p.section == section
    requires forall p :: p in a || p in b || p in c || p in e ==> p.section != section
    ensures PatternsIn(a + b + c + d + e, section) == d
  {
    PatternsInFive(a, b, c, d, e, section);
    PatternsInAll(d, section);
    PatternsInNone(a, section);
    PatternsInNone(b, section);
    PatternsInNone(c, section);
    PatternsInNone(e, section);
  }

  /** The class patterns of the character's list are exactly the three class patterns. */
  lemma ClassesOf(code: nat, inCharGroup: bool, engine: Engine, table: seq<SyntaxItem>)
    ensures PatternsIn(GetPatterns(code, inCharGroup, engine, table), CharacterClasses) == ClassPatterns(engine.isMatch)
  {
    var escapes := if code <= 0xFF then EscapePatterns(code, inCharGroup, engine.escapeMode) else [];
    var classes := ClassPatterns(engine.isMatch);
    var numeric := if code <= 0xFF then NumericEscapes(code) else [];
    OnlySecond(escapes, classes, CategoryPatterns(table, engine.isMatch), BlockPattern(table, engine.isMatch), numeric,
      CharacterClasses);
  }

  /** The named-block patterns of the character's list: the first block of the table it is in, or none. */
  lemma BlockOfCharacter(code: nat, inCharGroup: bool, engine: Engine, table: seq<SyntaxItem>)
    ensures PatternsIn(GetPatterns(code, inCharGroup, engine, table), NamedBlocks) == BlockPattern(table, engine.isMatch)
  {
    var escapes := if code <= 0xFF then EscapePatterns(code, inCharGroup, engine.escapeMode) else [];
    var block := BlockPattern(table, engine.isMatch);
    var numeric := if code <= 0xFF then NumericEscapes(code) else [];
    OnlyFourth(escapes, ClassPatterns(engine.isMatch), CategoryPatterns(table, engine.isMatch), block, numeric,
      NamedBlocks);
  }

  /** `s` is made of digits of `base` and reads as `code`. */
  predicate Numeral(s: string, base: nat, code: nat)
  {
    Text.Value(s, base) == code && forall i :: 0 <= i < |s| ==> Text.IsDigitOf(s[i], base)
  }

  /** `pattern` is `prefix` followed by `min` to `max` digits of `base` that read as `code`. */
  predicate SpelledAs(pattern: string, prefix: string, min: nat, max: nat, base: nat, code: nat)
  {
    && |prefix| <= |pattern| && pattern[..|prefix|] == prefix
    && min <= |pattern| - |prefix| <= max
    && Text.Value(pattern[|prefix|..], base) == code
    && forall i :: |prefix| <= i < |pattern| ==> Text.IsDigitOf(pattern[i], base)
  }

  /**
   * The numeric escapes spell the code: `\u` with exactly four hexadecimal
   * digits, `\x` with exactly two, `\` with two or three octal digits, and for
   * the codes 1 to 26 `\c` with the code-th letter in both cases.
   */
  lemma NumericEscapesSpelled(code: nat)
    requires code <= 0xFF
    ensures var p := NumericEscapes(code);
      && |p| == (if 1 <= code <= 26 then 5 else 3)
      && (forall q :: q in p ==> q.section == CharacterEscapes)
      && SpelledAs(p[0].pattern, "\\u", 4, 4, 16, code)
      && SpelledAs(p[1].pattern, "\\x", 2, 2, 16, code)
      && SpelledAs(p[2].pattern, "\\", 2, 3, 8, code)
      && (1 <= code <= 26 ==>
        && p[3].pattern[..2] == "\\c" && |p[3].pattern| == 3
        && 'a' <= p[3].pattern[2] <= 'z' && p[3].pattern[2] as int - 'a' as int + 1 == code
        && p[4].pattern[..2] == "\\c" && |p[4].pattern| == 3
        && 'A' <= p[4].pattern[2] <= 'Z' && p[4].pattern[2] as int - 'A' as int + 1 == code)
  {
    var p := NumericEscapes(code);
    Text.DigitsAtMostTwo(code, 16);
    Text.DigitsAtMostThree(code, 8);
    Text.PaddedDigits(code, 16, 4);
    Text.PaddedDigits(code, 16, 2);
    Text.PaddedDigits(code, 8, 2);
    assert p[0].pattern[2..] == Text.HexString(code, 4);
    assert p[1].pattern[2..] == Text.HexString(code, 2);
    assert p[2].pattern[1..] == Text.PadLeft(Text.Digits(code, 8), 2, '0');
  }

  // ---------------------------------------------------------------- selecting the spellings

  /**
   * The filter keeps a pattern whose spelling or description contains it,
   * ignoring case; a pattern without a description is judged by its spelling.
   */
  predicate PatternMatches(p: PatternInfo, filter: string)
  {
    || filter == ""
    || Text.ContainsIgnoreCase(p.pattern, filter)
    || (p.description.Some? && Text.ContainsIgnoreCase(p.description.value, filter))
  }

  /** The patterns the filter keeps, in order. */
  function PatternsFiltered(patterns: seq<PatternInfo>, filter: string): (r: seq<PatternInfo>)
    ensures forall p :: p in r <==> p in patterns && PatternMatches(p, filter)
    ensures filter == "" ==> r == patterns
  {
    if patterns == [] then []
    else
      var p := patterns[|patterns| - 1];
      PatternsFiltered(patterns[..|patterns| - 1], filter) + (if PatternMatches(p, filter) then [p] else [])
  }

  /** The join of the patterns with the sections: each pattern once for every entry equal to its section. */
  function PatternsJoined(patterns: seq<PatternInfo>, sections: seq<SyntaxSection>): seq<PatternInfo>
  {
    if patterns == [] then []
    else
      var p := patterns[|patterns| - 1];
      PatternsJoined(patterns[..|patterns| - 1], sections) + Copies(p, Occurrences(sections, p.section))
  }

  lemma {:induction false} PatternsJoinedKeeps(patterns: seq<PatternInfo>, sections: seq<SyntaxSection>)
    ensures forall p :: p in PatternsJoined(patterns, sections) <==> p in patterns && p.section in sections
  {
    if patterns != [] {
      var prefix, p := patterns[..|patterns| - 1], patterns[|patterns| - 1];
      PatternsJoinedKeeps(prefix, sections);
      OccurrencesIn(sections, p.section);
      assert patterns == prefix + [p];
    }
  }

  /** The spellings shown: filtered, then joined with the sections when any are given (no default exclusion here). */
  function SelectPatterns(patterns: seq<PatternInfo>, filter: string, sections: seq<SyntaxSection>): seq<PatternInfo>
  {
    var kept := PatternsFiltered(patterns, filter);
    if sections != [] then PatternsJoined(kept, sections) else kept
  }

  lemma SelectPatternsKeeps(patterns: seq<PatternInfo>, filter: string, sections: seq<SyntaxSection>)
    ensures forall p :: p in SelectPatterns(patterns, filter, sections) <==>
      p in patterns && PatternMatches(p, filter) && (sections != [] ==> p.section in sections)
  {
    PatternsJoinedKeeps(PatternsFiltered(patterns, filter), sections);
  }

  // ---------------------------------------------------------------- the character listing

  /** A row of the character listing; a missing value is written as "-". */
  datatype Row = Row(name: string, value: Text.Option<string>)

  function Shown(value: Text.Option<string>): string
  {
    match value
    case Some(v) => v
    case None => "-"
  }

  /** The rows about the character: its name when it is ASCII, then its decimal and hexadecimal values. */
  function CharacterRows(code: nat, name: string): (r: seq<Row>)
    ensures |r| == (if code <= 0x7F then 3 else 2)
    ensures r[0].name == "Name" <==> code <= 0x7F
    ensures r[|r| - 2] == Row("Decimal", Text.Option.Some(Text.DecimalString(code)))
    ensures r[|r| - 1] == Row("Hexadecimal", Text.Option.Some(Text.HexString(code, 0)))
  {
    (if code <= 0x7F then [Row("Name", Text.Option.Some(name))] else [])
    + [ Row("Decimal", Text.Option.Some(Text.DecimalString(code))),
        Row("Hexadecimal", Text.Option.Some(Text.HexString(code, 0))) ]
  }

  /** The rows of the patterns. */
  function PatternRows(patterns: seq<PatternInfo>): (r: seq<Row>)
    ensures |r| == |patterns|
    ensures forall i :: 0 <= i < |r| ==> r[i] == Row(patterns[i].pattern, patterns[i].description)
  {
    seq(|patterns|, i requires 0 <= i < |patterns| => Row(patterns[i].pattern, patterns[i].description))
  }

  const Header: Row := Row("PATTERN", Text.Option.Some("DESCRIPTION"))

  /** A row: the name, spaces up to one past the width, the value. */
  function RowLine(row: Row, width: int): string
  {
    row.name + Text.Spaces(width - |row.name| + 1) + Shown(row.value) + Text.NewLine
  }

  function RowLines(rows: seq<Row>, width: int): string
  {
    if rows == [] then "" else RowLines(rows[..|rows| - 1], width) + RowLine(rows[|rows| - 1], width)
  }

  /** The longest name of the rows; 0 for none. */
  function NameWidth(rows: seq<Row>): (w: nat)
    ensures forall r :: r in rows ==> |r.name| <= w
    ensures rows != [] ==> exists r :: r in rows && |r.name| == w
  {
    if rows == [] then 0
    else
      var r := rows[|rows| - 1];
      var w := NameWidth(rows[..|rows| - 1]);
      assert forall x :: x in rows ==> x in rows[..|rows| - 1] || x == r;
      if |r.name| > w then |r.name| else w
  }

  /** The column width: the longest row name or pattern, the patterns counting for nothing when there are none. */
  function CharWidth(rows: seq<Row>, patterns: seq<PatternInfo>): nat
  {
    var a := NameWidth(rows);
    var b := NameWidth(PatternRows(patterns));
    if a < b then b else a
  }

  /** The output of the character listing. */
  function CharacterListing(rows: seq<Row>, patterns: seq<PatternInfo>, width: int): string
  {
    Text.NewLine + RowLines(rows, width) + Text.NewLine + PatternSection(patterns, width)
  }

  /** The patterns under their header, or "No syntax found" when there are none. */
  function PatternSection(patterns: seq<PatternInfo>, width: int): string
  {
    if patterns != [] then RowLine(Header, width) + RowLines(PatternRows(patterns), width)
    else "No syntax found" + Text.NewLine
  }

  /**
   * As written, the width is the larger of two maxima taken with Max, which
   * throws on an empty sequence: with no pattern the width is never computed.
   */
  function WidthAsWritten(rows: seq<Row>, patterns: seq<PatternInfo>): (w: Text.Option<nat>)
    ensures w.Some? <==> rows != [] && patterns != []
    ensures w.Some? ==>
      (forall row :: row in rows ==> |row.name| <= w.value)
      && (forall i :: 0 <= i < |patterns| ==> |patterns[i].pattern| <= w.value)
  {
    if rows == [] || patterns == [] then Text.Option.None else Text.Option.Some(CharWidth(rows, patterns))
  }

  /** The outcome of the character listing as written: it throws before writing anything when no pattern is selected. */
  function ListCharacterAsWritten(rows: seq<Row>, patterns: seq<PatternInfo>): (res: ListResult)
    ensures res == Threw <==> rows == [] || patterns == []
    ensures res != NoMatch
  {
    match WidthAsWritten(rows, patterns)
    case None => Threw
    case Some(_) => if patterns != [] then Success else NoMatch
  }

  /**
   * Selecting only the anchors leaves no pattern for any character, so the
   * listing as written throws, and its "No syntax found" branch is never reached.
   */
  lemma AnchorsThrowAsWritten(code: nat, name: string, inCharGroup: bool, engine: Engine, table: seq<SyntaxItem>, filter: string)
    ensures SelectPatterns(GetPatterns(code, inCharGroup, engine, table), filter, [Anchors]) == []
    ensures ListCharacterAsWritten(CharacterRows(code, name),
      SelectPatterns(GetPatterns(code, inCharGroup, engine, table), filter, [Anchors])) == Threw
    ensures forall patterns :: ListCharacterAsWritten(CharacterRows(code, name), patterns) != NoMatch
  {
    var all := GetPatterns(code, inCharGroup, engine, table);
    SelectPatternsKeeps(all, filter, [Anchors]);
    Text.NoMembers(SelectPatterns(all, filter, [Anchors]));
  }

  /** Every row of the character listing fits the width, the header included: "Hexadecimal" is always a row. */
  lemma CharacterColumns(code: nat, name: string, patterns: seq<PatternInfo>)
    ensures var rows := CharacterRows(code, name);
      && CharWidth(rows, patterns) >= |"Hexadecimal"|
      && (forall r :: r in rows + [Header] + PatternRows(patterns) ==> |r.name| <= CharWidth(rows, patterns))
  {
    var rows := CharacterRows(code, name);
    assert rows[|rows| - 1] in rows;
    assert forall r :: r in PatternRows(patterns) ==> |r.name| <= NameWidth(PatternRows(patterns));
  }

  /** A row whose name fits the width puts its value one past the width. */
  lemma RowAligned(row: Row, width: int)
    requires |row.name| <= width
    ensures |RowLine(row, width)| == width + 1 + |Shown(row.value)| + |Text.NewLine|
    ensures RowLine(row, width)[..|row.name|] == row.name
    ensures RowLine(row, width)[width + 1..] == Shown(row.value) + Text.NewLine
  {
    var pad := Text.Spaces(width - |row.name| + 1);
    assert RowLine(row, width) == row.name + pad + (Shown(row.value) + Text.NewLine);
    assert |row.name + pad| == width + 1;
  }

  /** The row facts: a name row exactly for ASCII codes, and decimal and hexadecimal values that read back as the code. */
  lemma CharacterRowsSpelled(code: nat, name: string)
    ensures var rows := CharacterRows(code, name);
      && |rows| == (if code <= 0x7F then 3 else 2)
      && (code <= 0x7F <==> rows[0] == Row("Name", Text.Option.Some(name)))
      && rows[|rows| - 2].name == "Decimal" && rows[|rows| - 2].value.Some?
      && Numeral(rows[|rows| - 2].value.value, 10, code)
      && rows[|rows| - 1].name == "Hexadecimal" && rows[|rows| - 1].value.Some?
      && Numeral(rows[|rows| - 1].value.value, 16, code)
  {
    Text.PaddedDigits(code, 16, 0);
    Text.DigitsValue(code, 10);
    Text.DigitsAreDigits(code, 10);
    var rows := CharacterRows(code, name);
    assert rows[|rows| - 2].value.value == Text.Digits(code, 10);
    assert rows[|rows| - 1].value.value == Text.PadLeft(Text.Digits(code, 16), 0, '0');
    if code > 0x7F {
      assert rows[0].name == "Decimal";
      assert rows[0].name[0] != "Name"[0];
    }
  }

  /** One row: the name, the padding (Write(' ', count)), the value or "-". */
  method WriteRow(sink: Text.TextSink, row: Row, width: int)
    modifies sink
    ensures sink.text == old(sink.text) + RowLine(row, width)
  {
    sink.Write(row.name);
    sink.Write(Text.Spaces(width - |row.name| + 1));
    sink.WriteLine(Shown(row.value));
    Text.Prepend4(old(sink.text), row.name, Text.Spaces(width - |row.name| + 1), Shown(row.value), Text.NewLine);
  }

  method WriteRows(sink: Text.TextSink, rows: seq<Row>, width: int)
    modifies sink
    ensures sink.text == old(sink.text) + RowLines(rows, width)
  {
    var k := 0;
    while k < |rows|
      invariant 0 <= k <= |rows|
      invariant sink.text == old(sink.text) + RowLines(rows[..k], width)
    {
      WriteRow(sink, rows[k], width);
      assert rows[..k + 1][..k] == rows[..k];
      Text.AppendAssoc(old(sink.text), RowLines(rows[..k], width), RowLine(rows[k], width));
      k := k + 1;
    }
    assert rows[..k] == rows;
  }

  /**
   * The listing of one character: its rows, then its spellings under a header,
   * or "No syntax found" when none is selected. The width takes the patterns
   * as 0 when there are none.
   */
  method ListCharacter(sink: Text.TextSink, code: nat, name: string, inCharGroup: bool, engine: Engine,
    table: seq<SyntaxItem>, filter: string, sections: seq<SyntaxSection>) returns (result: ListResult)
    modifies sink
    ensures var rows := CharacterRows(code, name);
      var patterns := SelectPatterns(GetPatterns(code, inCharGroup, engine, table), filter, sections);
      && (result == NoMatch <==> patterns == [])
      && (result == Success <==> patterns != [])
      && sink.text == old(sink.text) + CharacterListing(rows, patterns, CharWidth(rows, patterns))
  {
    var rows: seq<Row> := [];
    if code <= 0x7F {
      rows := rows + [Row("Name", Text.Option.Some(name))];
    }
    rows := rows + [Row("Decimal", Text.Option.Some(Text.DecimalString(code)))];
    rows := rows + [Row("Hexadecimal", Text.Option.Some(Text.HexString(code, 0)))];
    assert rows == CharacterRows(code, name);
    var patterns := SelectPatterns(GetPatterns(code, inCharGroup, engine, table), filter, sections);
    result := WriteCharacter(sink, rows, patterns);
  }

  /** The output once the rows and the patterns are known. */
  method WriteCharacter(sink: Text.TextSink, rows: seq<Row>, patterns: seq<PatternInfo>) returns (result: ListResult)
    modifies sink
    ensures result == NoMatch <==> patterns == []
    ensures result == Success <==> patterns != []
    ensures sink.text == old(sink.text) + CharacterListing(rows, patterns, CharWidth(rows, patterns))
  {
    var width := CharWidth(rows, patterns);
    sink.WriteLine("");
    assert sink.text == old(sink.text) + Text.NewLine;
    WriteRows(sink, rows, width);
    sink.WriteLine("");
    assert sink.text == old(sink.text) + Text.NewLine + RowLines(rows, width) + Text.NewLine;
    result := WritePatterns(sink, patterns, width);
    Text.Prepend4(old(sink.text), Text.NewLine, RowLines(rows, width), Text.NewLine, PatternSection(patterns, width));
  }

  /** The header and a row per pattern, or "No syntax found". */
  method WritePatterns(sink: Text.TextSink, patterns: seq<PatternInfo>, width: int) returns (result: ListResult)
    modifies sink
    ensures result == NoMatch <==> patterns == []
    ensures result == Success <==> patterns != []
    ensures sink.text == old(sink.text) + PatternSection(patterns, width)
  {
    if |patterns| > 0 {
      WriteRow(sink, Header, width);
      WriteRows(sink, PatternRows(patterns), width);
      Text.AppendAssoc(old(sink.text), RowLine(Header, width), RowLines(PatternRows(patterns), width));
      result := Success;
    } else {
      sink.WriteLine("No syntax found");
      Text.AppendAssoc(old(sink.text), "No syntax found", Text.NewLine);
      result := NoMatch;
    }
  }
}
