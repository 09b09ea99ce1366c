/**
 * The help text of the command line: the usage line, the argument and option
 * tables with their aligned columns, the command list, and the tables of
 * option values. The output is the text appended to a sink.
 */
module Help {
  import Text

  /** A positional argument of a command. */
  datatype CommandArgument = CommandArgument(name: string, description: string, isRequired: bool)

  /** An option of a command; an empty short name or meta value means it has none. */
  datatype CommandOption = CommandOption(
    name: string, shortName: string, metaValue: string, description: string, isRequired: bool)

  datatype Command = Command(
    name: string, description: string, arguments: seq<CommandArgument>, options: seq<CommandOption>)

  /** A value an option accepts: a plain value, or a `key=value` pair. */
  datatype OptionValue =
    | SimpleValue(value: string, shortValue: string, description: string, hidden: bool)
    | KeyValue(key: string, value: string, shortKey: string, description: string, hidden: bool)

  /** The values of the options whose meta value is the provider's name. */
  datatype OptionValueProvider = OptionValueProvider(name: string, values: seq<OptionValue>)

  // ---------------------------------------------------------------- name order

  /** Ordinal order on strings: a prefix comes first, otherwise the first differing character decides. */
  predicate OrdinalLe(a: string, b: string)
    decreases |a|
  {
    a == [] || (b != [] && (a[0] < b[0] || (a[0] == b[0] && OrdinalLe(a[1..], b[1..]))))
  }

  lemma {:induction false} OrdinalTotal(a: string, b: string)
    ensures OrdinalLe(a, b) || OrdinalLe(b, a)
    decreases |a|
  {
    if a != [] && b != [] && a[0] == b[0] {
      OrdinalTotal(a[1..], b[1..]);
    }
  }

  predicate SortedByName(ps: seq<OptionValueProvider>)
  {
    forall i :: 0 < i < |ps| ==> OrdinalLe(ps[i - 1].name, ps[i].name)
  }

  lemma {:induction false} OrdinalTrans(a: string, b: string, c: string)
    requires OrdinalLe(a, b) && OrdinalLe(b, c)
    ensures OrdinalLe(a, c)
    decreases |a|
  {
    if a != [] && a[0] == b[0] && b[0] == c[0] {
      OrdinalTrans(a[1..], b[1..], c[1..]);
    }
  }

  /** In a sorted sequence no name comes before the first one. */
  lemma {:induction false} SortedFirst(ps: seq<OptionValueProvider>)
    requires SortedByName(ps)
    ensures forall i :: 0 <= i < |ps| ==> OrdinalLe(ps[0].name, ps[i].name)
    decreases |ps|
  {
    if |ps| > 1 {
      SortedFirst(ps[1..]);
      forall i | 1 <= i < |ps| ensures OrdinalLe(ps[0].name, ps[i].name) {
        assert ps[1..][i - 1] == ps[i];
        OrdinalTrans(ps[0].name, ps[1].name, ps[i].name);
      }
    }
    if ps != [] {
      OrdinalTotal(ps[0].name, ps[0].name);
    }
  }

  /** `p` put before the first provider whose name is greater, so after those with an equal name. */
  function InsertByName(p: OptionValueProvider, sorted: seq<OptionValueProvider>): (r: seq<OptionValueProvider>)
    ensures multiset(r) == multiset(sorted) + multiset{p}
    ensures |r| > 0 && (r[0] == p || (sorted != [] && r[0] == sorted[0]))
  {
    if sorted == [] || !OrdinalLe(sorted[0].name, p.name) then [p] + sorted
    else
      assert sorted == [sorted[0]] + sorted[1..];
      [sorted[0]] + InsertByName(p, sorted[1..])
  }

  lemma {:induction false} InsertByNameSorted(p: OptionValueProvider, sorted: seq<OptionValueProvider>)
    requires SortedByName(sorted)
    ensures SortedByName(InsertByName(p, sorted))
  {
    if sorted == [] {
    } else if !OrdinalLe(sorted[0].name, p.name) {
      OrdinalTotal(p.name, sorted[0].name);
      var r := [p] + sorted;
      forall i | 0 < i < |r| ensures OrdinalLe(r[i - 1].name, r[i].name) {
        if i > 1 {
          assert r[i - 1] == sorted[i - 2] && r[i] == sorted[i - 1];
        }
      }
    } else {
      var rest := InsertByName(p, sorted[1..]);
      InsertByNameSorted(p, sorted[1..]);
      var r := [sorted[0]] + rest;
      forall i | 0 < i < |r| ensures OrdinalLe(r[i - 1].name, r[i].name) {
        if i > 1 {
          assert r[i - 1] == rest[i - 2] && r[i] == rest[i - 1];
        }
      }
    }
  }

  /** A sorted sequence whose first name is greater than `name` has no provider of that name. */
  lemma NoneNamedBelowFirst(sorted: seq<OptionValueProvider>, name: string)
    requires SortedByName(sorted)
    requires sorted != [] && !OrdinalLe(sorted[0].name, name)
    ensures ProvidersNamed(sorted, name) == []
  {
    SortedFirst(sorted);
    forall q | q in sorted ensures q.name != name {
      var k :| 0 <= k < |sorted| && sorted[k] == q;
    }
    Text.NoMembers(ProvidersNamed(sorted, name));
  }

  lemma ProvidersNamedSingle(p: OptionValueProvider, name: string)
    ensures ProvidersNamed([p], name) == if p.name == name then [p] else []
  {
    assert [p][..0] == [];
  }

  /** Put in front of greater names only, `p` still comes after every provider of its name. */
  lemma InsertFrontNamed(p: OptionValueProvider, sorted: seq<OptionValueProvider>, name: string)
    requires SortedByName(sorted)
    requires sorted == [] || !OrdinalLe(sorted[0].name, p.name)
    ensures ProvidersNamed([p] + sorted, name)
      == ProvidersNamed(sorted, name) + (if p.name == name then [p] else [])
  {
    ProvidersNamedSingle(p, name);
    ProvidersNamedAppend([p], sorted, name);
    if p.name == name {
      if sorted != [] {
        NoneNamedBelowFirst(sorted, name);
      }
      assert ProvidersNamed([p] + sorted, name) == [p] + [];
    } else {
      assert ProvidersNamed([p] + sorted, name) == [] + ProvidersNamed(sorted, name);
    }
  }

  /**
   * Inserting keeps the order among equal names: `p` comes after every provider
   * of the sorted sequence that has its name.
   */
  lemma {:induction false} InsertByNameNamed(p: OptionValueProvider, sorted: seq<OptionValueProvider>, name: string)
    requires SortedByName(sorted)
    ensures ProvidersNamed(InsertByName(p, sorted), name)
      == ProvidersNamed(sorted, name) + (if p.name == name then [p] else [])
    decreases |sorted|
  {
    if sorted == [] || !OrdinalLe(sorted[0].name, p.name) {
      assert InsertByName(p, sorted) == [p] + sorted;
      InsertFrontNamed(p, sorted, name);
    } else {
      InsertByNameNamed(p, sorted[1..], name);
      InsertAfterFirstNamed(p, sorted, name);
    }
  }

  lemma InsertAfterFirstNamed(p: OptionValueProvider, sorted: seq<OptionValueProvider>, name: string)
    requires sorted != [] && OrdinalLe(sorted[0].name, p.name)
    requires ProvidersNamed(InsertByName(p, sorted[1..]), name)
      == ProvidersNamed(sorted[1..], name) + (if p.name == name then [p] else [])
    ensures ProvidersNamed(InsertByName(p, sorted), name)
      == ProvidersNamed(sorted, name) + (if p.name == name then [p] else [])
  {
    var own := if p.name == name then [p] else [];
    var first, rest := [sorted[0]], sorted[1..];
    var ins := InsertByName(p, rest);
    var a, b, c := ProvidersNamed(first, name), ProvidersNamed(rest, name), ProvidersNamed(ins, name);
    assert ProvidersNamed(sorted, name) == a + b by {
      assert sorted == first + rest;
      ProvidersNamedAppend(first, rest, name);
    }
    assert ProvidersNamed(InsertByName(p, sorted), name) == a + c by {
      assert InsertByName(p, sorted) == first + ins;
      ProvidersNamedAppend(first, ins, name);
    }
    assert c == b + own;
    Text.AppendAssoc(a, b, own);
  }

  /** The providers in name order (OrderBy on the name). */
  function SortByName(ps: seq<OptionValueProvider>): (r: seq<OptionValueProvider>)
    ensures multiset(r) == multiset(ps)
  {
    if ps == [] then []
    else
      assert ps == ps[..|ps| - 1] + [ps[|ps| - 1]];
      InsertByName(ps[|ps| - 1], SortByName(ps[..|ps| - 1]))
  }

  /**
   * The sorted providers are in name order and are the same providers, and
   * the sort is stable: providers of one name keep their relative order.
   */
  lemma {:induction false} SortByNameSorted(ps: seq<OptionValueProvider>)
    ensures SortedByName(SortByName(ps))
    ensures multiset(SortByName(ps)) == multiset(ps) && |SortByName(ps)| == |ps|
    ensures forall name :: ProvidersNamed(SortByName(ps), name) == ProvidersNamed(ps, name)
  {
    if ps != [] {
      var init := ps[..|ps| - 1];
      var last := ps[|ps| - 1];
      SortByNameSorted(init);
      InsertByNameSorted(last, SortByName(init));
      forall name ensures ProvidersNamed(SortByName(ps), name) == ProvidersNamed(ps, name) {
        InsertByNameNamed(last, SortByName(init), name);
      }
    }
    assert |multiset(SortByName(ps))| == |multiset(ps)|;
  }

  // ---------------------------------------------------------------- the providers of some options

  /** The providers named `name`, in order. */
  function ProvidersNamed(providers: seq<OptionValueProvider>, name: string): (r: seq<OptionValueProvider>)
    ensures forall p :: p in r <==> p in providers && p.name == name
  {
    if providers == [] then []
    else
      var p := providers[|providers| - 1];
      ProvidersNamed(providers[..|providers| - 1], name) + (if p.name == name then [p] else [])
  }

  lemma {:induction false} ProvidersNamedAppend(a: seq<OptionValueProvider>, b: seq<OptionValueProvider>, name: string)
    ensures ProvidersNamed(a + b, name) == ProvidersNamed(a, name) + ProvidersNamed(b, name)
    decreases |b|
  {
    if b == [] {
      assert a + b == a;
    } else {
      assert (a + b)[..|a + b| - 1] == a + b[..|b| - 1];
      ProvidersNamedAppend(a, b[..|b| - 1], name);
    }
  }

  /**
   * The join of the options with the providers on meta value and name: for
   * each option in turn, the providers named by its meta value. An option
   * without a meta value joins nothing.
   */
  function JoinProviders(options: seq<CommandOption>, providers: seq<OptionValueProvider>): seq<OptionValueProvider>
  {
    if options == [] then []
    else
      var o := options[|options| - 1];
      JoinProviders(options[..|options| - 1], providers)
        + if o.metaValue != "" then ProvidersNamed(providers, o.metaValue) else []
  }

  lemma {:induction false} JoinProvidersKeeps(options: seq<CommandOption>, providers: seq<OptionValueProvider>)
    ensures forall p :: p in JoinProviders(options, providers) <==>
      p in providers && exists o :: o in options && o.metaValue != "" && o.metaValue == p.name
  {
    if options != [] {
      var prefix := options[..|options| - 1];
      JoinProvidersKeeps(prefix, providers);
      assert options == prefix + [options[|options| - 1]];
    }
  }

  predicate HasName(ps: seq<OptionValueProvider>, name: string)
  {
    exists q :: q in ps && q.name == name
  }

  /** The first provider of each name, in order (Distinct by name). */
  function DistinctByName(ps: seq<OptionValueProvider>): (r: seq<OptionValueProvider>)
    ensures forall p :: p in r ==> p in ps
    ensures forall p :: p in ps ==> HasName(r, p.name)
    ensures forall i, j :: 0 <= i < j < |r| ==> r[i].name != r[j].name
  {
    if ps == [] then []
    else
      var prefix := ps[..|ps| - 1];
      var p := ps[|ps| - 1];
      var r := DistinctByName(prefix);
      assert forall q :: q in ps ==> q in prefix || q == p;
      if HasName(r, p.name) then r
      else
        var r' := r + [p];
        assert forall q :: q in r ==> q in r';
        assert r'[|r|] == p;
        r'
  }

  /** The providers whose values an option table lists: joined on the meta values, one per name. */
  function ProvidersOf(options: seq<CommandOption>, providers: seq<OptionValueProvider>): seq<OptionValueProvider>
  {
    DistinctByName(JoinProviders(options, providers))
  }

  /**
   * Every listed provider is named by some option's meta value, and every
   * meta value that names a provider has a listed provider of that name,
   * exactly one.
   */
  lemma ProvidersOfKeeps(options: seq<CommandOption>, providers: seq<OptionValueProvider>)
    ensures var r := ProvidersOf(options, providers);
      && (forall p :: p in r ==> p in providers && exists o :: o in options && o.metaValue != "" && o.metaValue == p.name)
      && (forall o, p :: o in options && p in providers && o.metaValue != "" && o.metaValue == p.name ==> HasName(r, p.name))
      && (forall i, j :: 0 <= i < j < |r| ==> r[i].name != r[j].name)
  {
    JoinProvidersKeeps(options, providers);
  }

  // ---------------------------------------------------------------- the usage line

  /** One argument in the usage line: a space, then its name, in brackets when it is optional. */
  function ArgumentUsage(a: CommandArgument): string
  {
    " " + (if a.isRequired then a.name else "[" + a.name + "]")
  }

  function ArgumentsUsage(arguments: seq<CommandArgument>): string
  {
    if arguments == [] then ""
    else ArgumentsUsage(arguments[..|arguments| - 1]) + ArgumentUsage(arguments[|arguments| - 1])
  }

  /** "Usage: orang", the command, its arguments, and " [options]" when it has options. */
  function Usage(command: Command): (u: string)
    ensures |"Usage: orang "| + |command.name| < |u|
    ensures u[..|"Usage: orang "| + |command.name|] == "Usage: orang " + command.name
    ensures u[|u| - |Text.NewLine|..] == Text.NewLine
  {
    "Usage: orang " + command.name + ArgumentsUsage(command.arguments)
      + (if command.options != [] then " [options]" else "") + Text.NewLine
  }

  function OptionalCount(arguments: seq<CommandArgument>): nat
  {
    if arguments == [] then 0
    else OptionalCount(arguments[..|arguments| - 1]) + if arguments[|arguments| - 1].isRequired then 0 else 1
  }

  /**
   * With no bracket in the names, the usage line opens one bracket per
   * optional argument and one more for the options, and closes as many.
   */
  lemma UsageBrackets(command: Command)
    requires '[' !in command.name && ']' !in command.name
    requires forall a :: a in command.arguments ==> '[' !in a.name && ']' !in a.name
    ensures Text.CountChar(Usage(command), '[') == OptionalCount(command.arguments) + (if command.options != [] then 1 else 0)
    ensures Text.CountChar(Usage(command), ']') == OptionalCount(command.arguments) + (if command.options != [] then 1 else 0)
  {
    ArgumentBrackets(command.arguments);
    UsageCount(command, '[');
    UsageCount(command, ']');
  }

  lemma UsageCount(command: Command, c: char)
    requires c == '[' || c == ']'
    requires c !in command.name
    ensures Text.CountChar(Usage(command), c)
      == Text.CountChar(ArgumentsUsage(command.arguments), c) + (if command.options != [] then 1 else 0)
  {
    var head := "Usage: orang ";
    var args := ArgumentsUsage(command.arguments);
    var suffix := if command.options != [] then " [options]" else "";
    assert Usage(command) == head + command.name + args + (suffix + Text.NewLine);
    Count4(head, command.name, args, suffix + Text.NewLine, c);
    Text.CountCharAppend(suffix, Text.NewLine, c);
    NoCount(command.name, c);
    LiteralCounts(c);
  }

  /** The fixed parts of the usage line: no bracket but the pair around "options". */
  lemma LiteralCounts(c: char)
    requires c == '[' || c == ']'
    ensures Text.CountChar("Usage: orang ", c) == 0
    ensures Text.CountChar(Text.NewLine, c) == 0
    ensures Text.CountChar("", c) == 0
    ensures Text.CountChar(" [options]", c) == 1
  {
    NoCount("Usage: orang ", c);
    NoCount(Text.NewLine, c);
    assert " [options]" == " " + "[" + "options" + "]";
    BracketedCount(" ", "options");
  }

  lemma Count4(a: string, b: string, c: string, d: string, x: char)
    ensures Text.CountChar(a + b + c + d, x) == Text.CountChar(a, x) + Text.CountChar(b, x) + Text.CountChar(c, x) + Text.CountChar(d, x)
  {
    Text.CountCharAppend(a + b + c, d, x);
    Text.CountCharAppend(a + b, c, x);
    Text.CountCharAppend(a, b, x);
  }

  lemma {:induction false} NoCount(s: string, c: char)
    requires c !in s
    ensures Text.CountChar(s, c) == 0
  {
    if s != [] {
      assert s == s[..|s| - 1] + [s[|s| - 1]];
      NoCount(s[..|s| - 1], c);
    }
  }

  /** `lead` + "[" + `name` + "]" has one bracket of each kind when its parts have none. */
  lemma BracketedCount(lead: string, name: string)
    requires '[' !in lead && ']' !in lead && '[' !in name && ']' !in name
    ensures Text.CountChar(lead + "[" + name + "]", '[') == 1
    ensures Text.CountChar(lead + "[" + name + "]", ']') == 1
  {
    NoCount(lead, '[');
    NoCount(lead, ']');
    NoCount(name, '[');
    NoCount(name, ']');
    Text.CountCharAppend(lead + "[" + name, "]", '[');
    Text.CountCharAppend(lead + "[", name, '[');
    Text.CountCharAppend(lead, "[", '[');
    Text.CountCharAppend(lead + "[" + name, "]", ']');
    Text.CountCharAppend(lead + "[", name, ']');
    Text.CountCharAppend(lead, "[", ']');
  }

  lemma {:induction false} ArgumentBrackets(arguments: seq<CommandArgument>)
    requires forall a :: a in arguments ==> '[' !in a.name && ']' !in a.name
    ensures Text.CountChar(ArgumentsUsage(arguments), '[') == OptionalCount(arguments)
    ensures Text.CountChar(ArgumentsUsage(arguments), ']') == OptionalCount(arguments)
  {
    if arguments != [] {
      var prefix := arguments[..|arguments| - 1];
      var a := arguments[|arguments| - 1];
      assert a in arguments;
      assert forall x :: x in prefix ==> x in arguments;
      ArgumentBrackets(prefix);
      Text.CountCharAppend(ArgumentsUsage(prefix), ArgumentUsage(a), '[');
      Text.CountCharAppend(ArgumentsUsage(prefix), ArgumentUsage(a), ']');
      if a.isRequired {
        NoCount(" " + a.name, '[');
        NoCount(" " + a.name, ']');
      } else {
        assert ArgumentUsage(a) == " " + "[" + a.name + "]";
        BracketedCount(" ", a.name);
      }
    }
  }

  // ---------------------------------------------------------------- the argument table

  predicate AnyOptionalArgument(arguments: seq<CommandArgument>)
  {
    exists a :: a in arguments && !a.isRequired
  }

  /** The longest argument name; 0 for none. */
  function ArgumentNameWidth(arguments: seq<CommandArgument>): (w: nat)
    ensures forall a :: a in arguments ==> |a.name| <= w
    ensures arguments != [] ==> exists a :: a in arguments && |a.name| == w
  {
    if arguments == [] then 0
    else
      var a := arguments[|arguments| - 1];
      var w := ArgumentNameWidth(arguments[..|arguments| - 1]);
      assert forall x :: x in arguments ==> x in arguments[..|arguments| - 1] || x == a;
      if |a.name| > w then |a.name| else w
  }

  /**
   * One argument row: the name (in brackets when optional, after a space when
   * required and some other argument is optional), then, when it has a
   * description, the padding and the description. An argument without a
   * description gets no line break.
   */
  function ArgumentLine(indent: string, a: CommandArgument, anyOptional: bool, maxWidth: int): string
  {
    indent + (if !a.isRequired then "[" else if anyOptional then " " else "") + a.name + (if !a.isRequired then "]" else "")
      + if a.description != "" then Text.Spaces(maxWidth - |a.name| + (if a.isRequired then 1 else 0)) + a.description + Text.NewLine
        else ""
  }

  function ArgumentLines(indent: string, arguments: seq<CommandArgument>, anyOptional: bool, maxWidth: int): string
  {
    if arguments == [] then ""
    else
      ArgumentLines(indent, arguments[..|arguments| - 1], anyOptional, maxWidth)
        + ArgumentLine(indent, arguments[|arguments| - 1], anyOptional, maxWidth)
  }

  /** The column where the argument descriptions start. */
  function ArgumentColumn(indent: string, anyOptional: bool, maxWidth: int): int
  {
    |indent| + maxWidth + if anyOptional then 2 else 1
  }

  /**
   * Every described argument's description starts at the same column, after
   * at least one space, whether the argument is required or optional.
   */
  lemma ArgumentAligned(indent: string, a: CommandArgument, anyOptional: bool, maxWidth: int)
    requires |a.name| < maxWidth
    requires !a.isRequired ==> anyOptional
    requires a.description != ""
    ensures var line := ArgumentLine(indent, a, anyOptional, maxWidth);
      var column := ArgumentColumn(indent, anyOptional, maxWidth);
      && |line| == column + |a.description| + |Text.NewLine|
      && line[column - 1] == ' '
      && line[column..] == a.description + Text.NewLine
  {
    var open := if !a.isRequired then "[" else if anyOptional then " " else "";
    var close := if !a.isRequired then "]" else "";
    var pad := Text.Spaces(maxWidth - |a.name| + (if a.isRequired then 1 else 0));
    var head := indent + open + a.name + close + pad;
    assert ArgumentLine(indent, a, anyOptional, maxWidth) == head + (a.description + Text.NewLine);
    assert |head| == ArgumentColumn(indent, anyOptional, maxWidth);
    assert head[|head| - 1] == pad[|pad| - 1];
  }

  // ---------------------------------------------------------------- the option table

  predicate AnyOptionalOption(options: seq<CommandOption>)
  {
    exists o :: o in options && !o.isRequired
  }

  predicate AnyShortName(options: seq<CommandOption>)
  {
    exists o :: o in options && o.shortName != ""
  }

  function OptionNameWidth(options: seq<CommandOption>): (w: nat)
    ensures forall o :: o in options ==> |o.name| <= w
    ensures options != [] ==> exists o :: o in options && |o.name| == w
  {
    if options == [] then 0
    else
      var o := options[|options| - 1];
      var w := OptionNameWidth(options[..|options| - 1]);
      assert forall x :: x in options ==> x in options[..|options| - 1] || x == o;
      if |o.name| > w then |o.name| else w
  }

  /** The width of the first column: the longest name plus 3, plus 2 for brackets, plus 4 for short names. */
  function FirstColumnWidth(options: seq<CommandOption>): nat
  {
    FirstColumn(OptionNameWidth(options), AnyOptionalOption(options), AnyShortName(options))
  }

  function FirstColumn(nameWidth: nat, anyOptional: bool, anyShortName: bool): nat
  {
    nameWidth + 3 + (if anyOptional then 2 else 0) + (if anyShortName then 4 else 0)
  }

  /** The longest meta value; 0 for none. */
  function MetaWidth(options: seq<CommandOption>): (w: nat)
    ensures forall o :: o in options ==> |o.metaValue| <= w
    ensures options != [] ==> exists o :: o in options && |o.metaValue| == w
  {
    if options == [] then 0
    else
      var o := options[|options| - 1];
      var w := MetaWidth(options[..|options| - 1]);
      assert forall x :: x in options ==> x in options[..|options| - 1] || x == o;
      if |o.metaValue| > w then |o.metaValue| else w
  }

  /** What the builder holds for an option: bracket or space, short name or four spaces, "--" and the name. */
  function OptionPrefix(o: CommandOption, anyOptional: bool, anyShortName: bool): string
  {
    (if !o.isRequired then "[" else if anyOptional then " " else "")
      + (if o.shortName != "" then "-" + o.shortName + ", " else if anyShortName then "    " else "")
      + "--" + o.name + (if !o.isRequired then "]" else "")
  }

  /** The meta value padded to the meta column, or the column of spaces. */
  function MetaCell(o: CommandOption, width2: int): string
  {
    if o.metaValue != "" then o.metaValue + Text.Spaces(width2 - |o.metaValue|) else Text.Spaces(width2)
  }

  function OptionLine(indent: string, o: CommandOption, anyOptional: bool, anyShortName: bool, width1: int, width2: int): string
  {
    var prefix := OptionPrefix(o, anyOptional, anyShortName);
    indent + prefix + Text.Spaces(width1 - |prefix|) + MetaCell(o, width2) + " " + o.description + Text.NewLine
  }

  function OptionLines(indent: string, options: seq<CommandOption>, anyOptional: bool, anyShortName: bool, width1: int, width2: int)
    : string
  {
    if options == [] then ""
    else
      OptionLines(indent, options[..|options| - 1], anyOptional, anyShortName, width1, width2)
        + OptionLine(indent, options[|options| - 1], anyOptional, anyShortName, width1, width2)
  }

  /** The builder's contents stay within the first column, one space short at least, for short names of one character. */
  lemma PrefixFits(o: CommandOption, anyOptional: bool, anyShortName: bool, nameWidth: int)
    requires |o.name| <= nameWidth && |o.shortName| <= 1
    requires !o.isRequired ==> anyOptional
    requires o.shortName != "" ==> anyShortName
    ensures |OptionPrefix(o, anyOptional, anyShortName)| < nameWidth + 3 + (if anyOptional then 2 else 0) + (if anyShortName then 4 else 0)
  {
  }

  /** The meta cell is exactly as wide as the meta column and starts with the meta value. */
  lemma MetaCellShape(o: CommandOption, width2: int)
    requires |o.metaValue| <= width2
    ensures |MetaCell(o, width2)| == width2
    ensures MetaCell(o, width2)[..|o.metaValue|] == o.metaValue
  {
  }

  /**
   * `line` has `value` at `metaColumn` after a space, and `rest` from
   * `column` on after another space.
   */
  predicate Laid(line: string, metaColumn: int, value: string, column: int, rest: string)
  {
    && 0 < metaColumn && metaColumn + |value| < column <= |line|
    && line[metaColumn - 1] == ' '
    && line[metaColumn..metaColumn + |value|] == value
    && line[column - 1] == ' '
    && line[column..] == rest
  }

  /** Where the pieces of a row land. */
  lemma RowLayout(head: string, cell: string, value: string, rest: string, metaColumn: int, column: int)
    requires |head| > 0 && head[|head| - 1] == ' '
    requires |value| <= |cell| && cell[..|value|] == value
    requires metaColumn == |head| && column == |head| + |cell| + 1
    ensures Laid(head + cell + " " + rest, metaColumn, value, column, rest)
  {
    var line := head + cell + " " + rest;
    assert line[|head|..|head| + |value|] == cell[..|value|];
    assert line[|head| - 1] == head[|head| - 1];
    assert line[|head| + |cell| + 1..] == rest;
  }

  /**
   * An option row puts its meta value right after the first column and its
   * description right after the meta column and one space, when its short
   * name has at most one character and the widths cover it.
   */
  lemma OptionAligned(indent: string, o: CommandOption, anyOptional: bool, anyShortName: bool, nameWidth: nat, width1: int, width2: int)
    requires |o.name| <= nameWidth && |o.shortName| <= 1 && |o.metaValue| <= width2
    requires !o.isRequired ==> anyOptional
    requires o.shortName != "" ==> anyShortName
    requires width1 == FirstColumn(nameWidth, anyOptional, anyShortName)
    ensures Laid(OptionLine(indent, o, anyOptional, anyShortName, width1, width2),
      |indent| + width1, o.metaValue, |indent| + width1 + width2 + 1, o.description + Text.NewLine)
  {
    var prefix := OptionPrefix(o, anyOptional, anyShortName);
    var pad := Text.Spaces(width1 - |prefix|);
    var head := indent + prefix + pad;
    assert OptionLine(indent, o, anyOptional, anyShortName, width1, width2)
      == head + MetaCell(o, width2) + " " + (o.description + Text.NewLine);
    PrefixFits(o, anyOptional, anyShortName, nameWidth);
    assert |head| == |indent| + width1;
    assert head[|head| - 1] == pad[|pad| - 1];
    MetaCellShape(o, width2);
    RowLayout(head, MetaCell(o, width2), o.metaValue, o.description + Text.NewLine,
      |indent| + width1, |indent| + width1 + width2 + 1);
  }

  /** The table's own widths cover every option. */
  lemma OptionInTable(o: CommandOption, options: seq<CommandOption>)
    requires o in options
    ensures |o.name| <= OptionNameWidth(options) && |o.metaValue| <= MetaWidth(options)
    ensures !o.isRequired ==> AnyOptionalOption(options)
    ensures o.shortName != "" ==> AnyShortName(options)
  {
  }

  // ---------------------------------------------------------------- the command list

  function CommandNameWidth(commands: seq<Command>): (w: nat)
    ensures forall c :: c in commands ==> |c.name| <= w
    ensures commands != [] ==> exists c :: c in commands && |c.name| == w
  {
    if commands == [] then 0
    else
      var c := commands[|commands| - 1];
      var w := CommandNameWidth(commands[..|commands| - 1]);
      assert forall x :: x in commands ==> x in commands[..|commands| - 1] || x == c;
      if |c.name| > w then |c.name| else w
  }

  /** One command: its name padded to the column width, then its description. */
  function CommandSummary(indent: string, command: Command, columnWidth: int): string
  {
    indent + command.name + Text.Spaces(columnWidth - |command.name|) + command.description + Text.NewLine
  }

  function CommandSummaries(indent: string, commands: seq<Command>, columnWidth: int): string
  {
    if commands == [] then ""
    else
      CommandSummaries(indent, commands[..|commands| - 1], columnWidth)
        + CommandSummary(indent, commands[|commands| - 1], columnWidth)
  }

  /** With the column one past the longest name, every description starts at the same column after a space. */
  lemma CommandAligned(indent: string, command: Command, commands: seq<Command>)
    requires command in commands
    ensures var line := CommandSummary(indent, command, CommandNameWidth(commands) + 1);
      var column := |indent| + CommandNameWidth(commands) + 1;
      && line[column - 1] == ' '
      && line[column..] == command.description + Text.NewLine
  {
    var width := CommandNameWidth(commands) + 1;
    var pad := Text.Spaces(width - |command.name|);
    var head := indent + command.name + pad;
    assert CommandSummary(indent, command, width) == head + (command.description + Text.NewLine);
    assert head[|head| - 1] == pad[|pad| - 1];
  }

  // ---------------------------------------------------------------- the value tables

  /** The values that are not hidden, in order. */
  function Visible(vs: seq<OptionValue>): (r: seq<OptionValue>)
    ensures forall v :: v in r <==> v in vs && !v.hidden
  {
    if vs == [] then []
    else
      assert vs == vs[..|vs| - 1] + [vs[|vs| - 1]];
      Visible(vs[..|vs| - 1]) + if vs[|vs| - 1].hidden then [] else [vs[|vs| - 1]]
  }

  /** The visible values of all the providers, provider by provider. */
  function VisibleValues(ps: seq<OptionValueProvider>): (r: seq<OptionValue>)
    ensures forall v :: v in r <==> exists p :: p in ps && v in p.values && !v.hidden
  {
    if ps == [] then []
    else
      assert ps == ps[..|ps| - 1] + [ps[|ps| - 1]];
      VisibleValues(ps[..|ps| - 1]) + Visible(ps[|ps| - 1].values)
  }

  /** What the first column shows: the value, or "key=value". */
  function ValueText(v: OptionValue): string
  {
    match v
    case SimpleValue(value, _, _, _) => value
    case KeyValue(key, value, _, _, _) => key + "=" + value
  }

  function ShortText(v: OptionValue): string
  {
    match v
    case SimpleValue(_, shortValue, _, _) => shortValue
    case KeyValue(_, _, shortKey, _, _) => shortKey
  }

  /** The width the table reserves for a value: its length, or the key's and the value's plus one. */
  function ValueWidth(v: OptionValue): nat
  {
    match v
    case SimpleValue(value, _, _, _) => |value|
    case KeyValue(key, value, _, _, _) => |key| + 1 + |value|
  }

  function MaxValueWidth(vs: seq<OptionValue>): (w: nat)
    ensures forall v :: v in vs ==> ValueWidth(v) <= w
    ensures vs != [] ==> exists v :: v in vs && ValueWidth(v) == w
  {
    if vs == [] then 0
    else
      var v := vs[|vs| - 1];
      var w := MaxValueWidth(vs[..|vs| - 1]);
      assert forall x :: x in vs ==> x in vs[..|vs| - 1] || x == v;
      if ValueWidth(v) > w then ValueWidth(v) else w
  }

  function MaxShortWidth(vs: seq<OptionValue>): (w: nat)
    ensures forall v :: v in vs ==> |ShortText(v)| <= w
    ensures vs != [] ==> exists v :: v in vs && |ShortText(v)| == w
  {
    if vs == [] then 0
    else
      var v := vs[|vs| - 1];
      var w := MaxShortWidth(vs[..|vs| - 1]);
      assert forall x :: x in vs ==> x in vs[..|vs| - 1] || x == v;
      if |ShortText(v)| > w then |ShortText(v)| else w
  }

  /** One value row: value, padding, short value, and the padded description when there is one. */
  function ValueLine(indent: string, v: OptionValue, width2: int, width3: int): string
  {
    indent + ValueText(v) + Text.Spaces(width2 - |ValueText(v)|) + ShortText(v)
      + (if v.description != "" then Text.Spaces(width3 - |ShortText(v)|) + v.description else "") + Text.NewLine
  }

  function ValueLines(indent: string, vs: seq<OptionValue>, width2: int, width3: int): string
  {
    if vs == [] then ""
    else ValueLines(indent, vs[..|vs| - 1], width2, width3) + ValueLine(indent, vs[|vs| - 1], width2, width3)
  }

  /** A provider's block: an empty line, its name, and a row per visible value. */
  function ProviderBlock(indent: string, p: OptionValueProvider, width2: int, width3: int): string
  {
    Text.NewLine + p.name + Text.NewLine + ValueLines(indent, Visible(p.values), width2, width3)
  }

  function ProviderBlocks(indent: string, ps: seq<OptionValueProvider>, width2: int, width3: int): string
  {
    if ps == [] then ""
    else ProviderBlocks(indent, ps[..|ps| - 1], width2, width3) + ProviderBlock(indent, ps[|ps| - 1], width2, width3)
  }

  /** "value:" and a line break. */
  function Heading(value: string): string
  {
    value + ":" + Text.NewLine
  }

  /**
   * Listing some providers fails (the maximum of no widths) when there are
   * providers but none of them has a visible value.
   */
  predicate ValuesOk(ps: seq<OptionValueProvider>)
  {
    ps == [] || VisibleValues(ps) != []
  }

  /**
   * The values section: nothing for no providers; otherwise the heading, then,
   * unless listing fails there, the blocks of the providers in name order, with
   * the columns sized over all visible values.
   */
  function ValuesText(indent: string, ps: seq<OptionValueProvider>): string
  {
    if ps == [] then "" else Text.NewLine + Heading("Values") + ValueBlocks(indent, ps)
  }

  /** The blocks under the values heading, with the columns sized over all visible values. */
  function ValueBlocks(indent: string, ps: seq<OptionValueProvider>): string
  {
    if VisibleValues(ps) == [] then ""
    else
      ProviderBlocks(indent, SortByName(ps), MaxValueWidth(VisibleValues(ps)) + 1, MaxShortWidth(VisibleValues(ps)) + 1)
  }

  /**
   * The rendered first column is exactly as wide as the width reserved for it,
   * so every visible value's short value starts at one column after a space,
   * and every description at one column after another space.
   */
  lemma ValueAligned(indent: string, v: OptionValue, ps: seq<OptionValueProvider>, width2: int, width3: int)
    requires v in VisibleValues(ps) && v.description != ""
    requires width2 == MaxValueWidth(VisibleValues(ps)) + 1 && width3 == MaxShortWidth(VisibleValues(ps)) + 1
    ensures Laid(ValueLine(indent, v, width2, width3),
      |indent| + width2, ShortText(v), |indent| + width2 + width3, v.description + Text.NewLine)
  {
    assert |ValueText(v)| == ValueWidth(v);
    assert ValueLine(indent, v, width2, width3) == indent + ValueText(v) + Text.Spaces(width2 - |ValueText(v)|)
      + ShortText(v) + (Text.Spaces(width3 - |ShortText(v)|) + v.description) + Text.NewLine;
    ValueRow(indent, ValueText(v), ShortText(v), v.description, width2, width3);
  }

  /** A value row with its columns wide enough for the value and the short value. */
  lemma ValueRow(indent: string, value: string, short: string, description: string, width2: int, width3: int)
    requires |value| < width2 && |short| < width3
    ensures Laid(indent + value + Text.Spaces(width2 - |value|) + short + (Text.Spaces(width3 - |short|) + description)
        + Text.NewLine,
      |indent| + width2, short, |indent| + width2 + width3, description + Text.NewLine)
  {
    var pad := Text.Spaces(width2 - |value|);
    var gap := Text.Spaces(width3 - |short| - 1);
    var head := indent + value + pad;
    assert Text.Spaces(width3 - |short|) == gap + " ";
    Regroup(indent, value, pad, short, gap, description, Text.NewLine);
    assert head[|head| - 1] == pad[|pad| - 1];
    assert (short + gap)[..|short|] == short;
    RowLayout(head, short + gap, short, description + Text.NewLine, |indent| + width2, |indent| + width2 + width3);
  }

  lemma Regroup(a: string, b: string, c: string, d: string, q: string, e: string, nl: string)
    ensures a + b + c + d + (q + " " + e) + nl == (a + b + c) + (d + q) + " " + (e + nl)
  {
  }

  // ---------------------------------------------------------------- whole sections

  function ArgumentsSection(indent: string, arguments: seq<CommandArgument>): string
  {
    Text.NewLine + Heading("Arguments")
      + ArgumentLines(indent, arguments, AnyOptionalArgument(arguments), ArgumentNameWidth(arguments) + 1)
  }

  function OptionsSection(indent: string, options: seq<CommandOption>): string
  {
    Text.NewLine + Heading("Options")
      + OptionLines(indent, options, AnyOptionalOption(options), AnyShortName(options), FirstColumnWidth(options), MetaWidth(options))
  }

  /** The help of one command: usage, the argument table, the option table, and the values of its options. */
  function CommandText(indent: string, command: Command, includeValues: bool, providers: seq<OptionValueProvider>): string
  {
    Usage(command)
      + (if command.arguments != [] then ArgumentsSection(indent, command.arguments) else "")
      + if command.options != [] then
          OptionsSection(indent, command.options)
            + (if includeValues then ValuesText(indent, ProvidersOf(command.options, providers)) else "")
        else ""
  }

  predicate CommandOk(command: Command, includeValues: bool, providers: seq<OptionValueProvider>)
  {
    command.options == [] || !includeValues || ValuesOk(ProvidersOf(command.options, providers))
  }

  /** The options of all the commands, command by command. */
  function AllOptions(commands: seq<Command>): (r: seq<CommandOption>)
    ensures forall o :: o in r <==> exists c :: c in commands && o in c.options
  {
    if commands == [] then []
    else
      assert commands == commands[..|commands| - 1] + [commands[|commands| - 1]];
      AllOptions(commands[..|commands| - 1]) + commands[|commands| - 1].options
  }

  /**
   * The command list: the heading, then (when there are commands) a summary per
   * command with the names padded one past the longest, then the values of
   * all their options.
   */
  function CommandsText(indent: string, commands: seq<Command>, includeValues: bool, providers: seq<OptionValueProvider>)
    : string
  {
    Heading("Commands")
      + if commands == [] then ""
        else
          CommandSummaries(indent, commands, CommandNameWidth(commands) + 1)
            + if includeValues then ValuesText(indent, ProvidersOf(AllOptions(commands), providers)) else ""
  }

  predicate CommandsOk(commands: seq<Command>, includeValues: bool, providers: seq<OptionValueProvider>)
  {
    commands != [] && (!includeValues || ValuesOk(ProvidersOf(AllOptions(commands), providers)))
  }

  // ---------------------------------------------------------------- alignment in whole tables

  /** In an argument table every description starts at the table's column, after a space. */
  lemma ArgumentTableAligned(indent: string, a: CommandArgument, arguments: seq<CommandArgument>)
    requires a in arguments && a.description != ""
    ensures var anyOptional := AnyOptionalArgument(arguments);
      var maxWidth := ArgumentNameWidth(arguments) + 1;
      var line := ArgumentLine(indent, a, anyOptional, maxWidth);
      var column := ArgumentColumn(indent, anyOptional, maxWidth);
      && |line| == column + |a.description| + |Text.NewLine|
      && line[column - 1] == ' '
      && line[column..] == a.description + Text.NewLine
  {
    ArgumentAligned(indent, a, AnyOptionalArgument(arguments), ArgumentNameWidth(arguments) + 1);
  }

  /** In an option table with one-character short names every row has the same columns. */
  lemma OptionTableAligned(indent: string, o: CommandOption, options: seq<CommandOption>, width1: int, width2: int)
    requires o in options && |o.shortName| <= 1
    requires width1 == FirstColumnWidth(options) && width2 == MetaWidth(options)
    ensures Laid(OptionLine(indent, o, AnyOptionalOption(options), AnyShortName(options), width1, width2),
      |indent| + width1, o.metaValue, |indent| + width1 + width2 + 1, o.description + Text.NewLine)
  {
    OptionInTable(o, options);
    OptionAligned(indent, o, AnyOptionalOption(options), AnyShortName(options), OptionNameWidth(options), width1, width2);
  }

  // ---------------------------------------------------------------- what the writes add up to

  lemma UsageArgumentWritten(before: string, text: string, a: CommandArgument)
    requires !a.isRequired ==> text == before + " " + "[" + a.name + "]"
    requires a.isRequired ==> text == before + " " + a.name
    ensures text == before + ArgumentUsage(a)
  {
    if !a.isRequired {
      Text.Prepend4(before, " ", "[", a.name, "]");
    }
  }

  lemma UsageStep(start: string, text: string, arguments: seq<CommandArgument>, i: int)
    requires 0 <= i < |arguments|
    requires text == start + ArgumentsUsage(arguments[..i]) + ArgumentUsage(arguments[i])
    ensures text == start + ArgumentsUsage(arguments[..i + 1])
  {
    Text.TakeStep(arguments, i);
    Text.AppendAssoc(start, ArgumentsUsage(arguments[..i]), ArgumentUsage(arguments[i]));
  }

  lemma UsageWritten(before: string, text: string, command: Command)
    requires command.options != [] ==>
      text == before + "Usage: orang " + command.name + ArgumentsUsage(command.arguments) + " [options]" + Text.NewLine
    requires command.options == [] ==>
      text == before + "Usage: orang " + command.name + ArgumentsUsage(command.arguments) + Text.NewLine
    ensures text == before + Usage(command)
  {
    var head := "Usage: orang " + command.name + ArgumentsUsage(command.arguments);
    if command.options != [] {
      Text.Prepend4(before, "Usage: orang ", command.name, ArgumentsUsage(command.arguments), " [options]");
      Text.AppendAssoc(before, head + " [options]", Text.NewLine);
    } else {
      Text.AppendEmpty(head);
      Text.Prepend4(before, "Usage: orang ", command.name, ArgumentsUsage(command.arguments), Text.NewLine);
    }
  }

  /** What the argument row method writes, branch by branch, is the argument's row. */
  lemma ArgumentWritten(before: string, text: string, indent: string, a: CommandArgument, anyOptional: bool, maxWidth: int,
      open: string, close: string)
    requires open == (if !a.isRequired then "[" else if anyOptional then " " else "")
    requires close == (if !a.isRequired then "]" else "")
    requires a.description != "" ==>
      text == before + indent + open + a.name + close
        + Text.Spaces(maxWidth - |a.name| + (if a.isRequired then 1 else 0)) + a.description + Text.NewLine
    requires a.description == "" ==> text == before + indent + open + a.name + close
    ensures text == before + ArgumentLine(indent, a, anyOptional, maxWidth)
  {
    var pad := Text.Spaces(maxWidth - |a.name| + (if a.isRequired then 1 else 0));
    var named := indent + open + a.name + close;
    if a.description != "" {
      Text.Prepend7(before, indent, open, a.name, close, pad, a.description, Text.NewLine);
      Text.Prepend4(indent, open, a.name, close, pad + a.description + Text.NewLine);
    } else {
      Text.Prepend4(before, indent, open, a.name, close);
      Text.AppendEmpty(named);
    }
  }

  lemma ArgumentRowsStep(indent: string, start: string, text: string, arguments: seq<CommandArgument>, i: int,
      anyOptional: bool, maxWidth: int)
    requires 0 <= i < |arguments|
    requires text == start + ArgumentLines(indent, arguments[..i], anyOptional, maxWidth)
      + ArgumentLine(indent, arguments[i], anyOptional, maxWidth)
    ensures text == start + ArgumentLines(indent, arguments[..i + 1], anyOptional, maxWidth)
  {
    Text.TakeStep(arguments, i);
    Text.AppendAssoc(start, ArgumentLines(indent, arguments[..i], anyOptional, maxWidth),
      ArgumentLine(indent, arguments[i], anyOptional, maxWidth));
  }

  /** An empty line, a heading and the rows under it. */
  lemma SectionWritten(before: string, text: string, title: string, rows: string)
    requires text == before + Text.NewLine + Heading(title) + rows
    ensures text == before + (Text.NewLine + Heading(title) + rows)
  {
    Text.AppendAssoc(before, Text.NewLine, Heading(title));
    Text.AppendAssoc(before, Text.NewLine + Heading(title), rows);
  }

  /** The builder, filled piece by piece from empty, holds the option's prefix. */
  lemma PrefixBuilt(o: CommandOption, anyOptional: bool, anyShortName: bool, sb: string)
    requires sb == "" + (if !o.isRequired then "[" else if anyOptional then " " else "")
      + (if o.shortName != "" then "-" + o.shortName + ", " else if anyShortName then "    " else "")
      + "--" + o.name + (if !o.isRequired then "]" else "")
    ensures sb == OptionPrefix(o, anyOptional, anyShortName)
  {
  }

  lemma OptionWritten(before: string, text: string, indent: string, o: CommandOption, anyOptional: bool, anyShortName: bool,
      width1: int, width2: int, prefix: string)
    requires prefix == OptionPrefix(o, anyOptional, anyShortName)
    requires text == before + indent + prefix + Text.Spaces(width1 - |prefix|) + MetaCell(o, width2) + " " + o.description
      + Text.NewLine
    ensures text == before + OptionLine(indent, o, anyOptional, anyShortName, width1, width2)
  {
    Text.Prepend7(before, indent, prefix, Text.Spaces(width1 - |prefix|), MetaCell(o, width2), " ", o.description,
      Text.NewLine);
  }

  lemma OptionRowsStep(indent: string, start: string, text: string, options: seq<CommandOption>, i: int,
      anyOptional: bool, anyShortName: bool, width1: int, width2: int)
    requires 0 <= i < |options|
    requires text == start + OptionLines(indent, options[..i], anyOptional, anyShortName, width1, width2)
      + OptionLine(indent, options[i], anyOptional, anyShortName, width1, width2)
    ensures text == start + OptionLines(indent, options[..i + 1], anyOptional, anyShortName, width1, width2)
  {
    Text.TakeStep(options, i);
    Text.AppendAssoc(start, OptionLines(indent, options[..i], anyOptional, anyShortName, width1, width2),
      OptionLine(indent, options[i], anyOptional, anyShortName, width1, width2));
  }

  lemma ValueWritten(before: string, text: string, indent: string, v: OptionValue, width2: int, width3: int)
    requires v.description != "" ==>
      text == before + indent + ValueText(v) + Text.Spaces(width2 - |ValueText(v)|)
        + ShortText(v) + Text.Spaces(width3 - |ShortText(v)|) + v.description + Text.NewLine
    requires v.description == "" ==>
      text == before + indent + ValueText(v) + Text.Spaces(width2 - |ValueText(v)|) + ShortText(v) + Text.NewLine
    ensures text == before + ValueLine(indent, v, width2, width3)
  {
    var pad := Text.Spaces(width2 - |ValueText(v)|);
    if v.description != "" {
      var gap := Text.Spaces(width3 - |ShortText(v)|);
      Text.Prepend7(before, indent, ValueText(v), pad, ShortText(v), gap, v.description, Text.NewLine);
      Text.AppendAssoc(indent + ValueText(v) + pad + ShortText(v), gap, v.description);
    } else {
      Text.Prepend4(before, indent, ValueText(v), pad, ShortText(v));
      Text.AppendAssoc(before, indent + ValueText(v) + pad + ShortText(v), Text.NewLine);
      Text.AppendEmpty(indent + ValueText(v) + pad + ShortText(v));
    }
  }

  /** The rows of the visible values, one value at a time: the loop's view of ValueLines. */
  function VisibleLines(indent: string, vs: seq<OptionValue>, width2: int, width3: int): string
  {
    if vs == [] then ""
    else
      VisibleLines(indent, vs[..|vs| - 1], width2, width3)
        + if vs[|vs| - 1].hidden then "" else ValueLine(indent, vs[|vs| - 1], width2, width3)
  }

  lemma {:induction false} VisibleLinesAre(indent: string, vs: seq<OptionValue>, width2: int, width3: int)
    ensures VisibleLines(indent, vs, width2, width3) == ValueLines(indent, Visible(vs), width2, width3)
    decreases |vs|
  {
    if vs != [] {
      var prefix, last := vs[..|vs| - 1], vs[|vs| - 1];
      VisibleLinesAre(indent, prefix, width2, width3);
      var shown := Visible(prefix);
      if last.hidden {
        Text.AppendEmpty(shown);
        Text.AppendEmpty(VisibleLines(indent, prefix, width2, width3));
      } else {
        assert Visible(vs) == shown + [last];
        assert (shown + [last])[..|shown|] == shown;
      }
    }
  }

  lemma VisibleStep(indent: string, start: string, text: string, vs: seq<OptionValue>, j: int, width2: int, width3: int)
    requires 0 <= j < |vs|
    requires text == start + VisibleLines(indent, vs[..j], width2, width3)
      + (if vs[j].hidden then "" else ValueLine(indent, vs[j], width2, width3))
    ensures text == start + VisibleLines(indent, vs[..j + 1], width2, width3)
  {
    Text.TakeStep(vs, j);
    Text.AppendAssoc(start, VisibleLines(indent, vs[..j], width2, width3),
      if vs[j].hidden then "" else ValueLine(indent, vs[j], width2, width3));
  }

  lemma ProviderWritten(before: string, text: string, indent: string, p: OptionValueProvider, width2: int, width3: int)
    requires text == before + Text.NewLine + p.name + Text.NewLine + ValueLines(indent, Visible(p.values), width2, width3)
    ensures text == before + ProviderBlock(indent, p, width2, width3)
  {
    Text.Prepend4(before, Text.NewLine, p.name, Text.NewLine, ValueLines(indent, Visible(p.values), width2, width3));
  }

  lemma ProviderBlocksStep(indent: string, start: string, text: string, ps: seq<OptionValueProvider>, i: int,
      width2: int, width3: int)
    requires 0 <= i < |ps|
    requires text == start + ProviderBlocks(indent, ps[..i], width2, width3) + ProviderBlock(indent, ps[i], width2, width3)
    ensures text == start + ProviderBlocks(indent, ps[..i + 1], width2, width3)
  {
    Text.TakeStep(ps, i);
    Text.AppendAssoc(start, ProviderBlocks(indent, ps[..i], width2, width3), ProviderBlock(indent, ps[i], width2, width3));
  }

  lemma ValuesWritten(before: string, text: string, indent: string, ps: seq<OptionValueProvider>)
    requires ps != []
    requires text == before + Text.NewLine + Heading("Values") + ValueBlocks(indent, ps)
    ensures text == before + ValuesText(indent, ps)
  {
    Text.AppendAssoc(before, Text.NewLine, Heading("Values"));
    Text.AppendAssoc(before, Text.NewLine + Heading("Values"), ValueBlocks(indent, ps));
  }

  lemma SummariesStep(indent: string, start: string, text: string, commands: seq<Command>, i: int, columnWidth: int)
    requires 0 <= i < |commands|
    requires text == start + CommandSummaries(indent, commands[..i], columnWidth) + CommandSummary(indent, commands[i], columnWidth)
    ensures text == start + CommandSummaries(indent, commands[..i + 1], columnWidth)
  {
    Text.TakeStep(commands, i);
    Text.AppendAssoc(start, CommandSummaries(indent, commands[..i], columnWidth), CommandSummary(indent, commands[i], columnWidth));
  }

  lemma CommandWritten(before: string, text: string, indent: string, command: Command, includeValues: bool,
      providers: seq<OptionValueProvider>, arguments: string, options: string, values: string)
    requires arguments == if command.arguments != [] then ArgumentsSection(indent, command.arguments) else ""
    requires options == if command.options != [] then OptionsSection(indent, command.options) else ""
    requires values == if command.options != [] && includeValues then
      ValuesText(indent, ProvidersOf(command.options, providers)) else ""
    requires text == before + Usage(command) + arguments + options + values
    ensures text == before + CommandText(indent, command, includeValues, providers)
  {
    var tail := if command.options != [] then
      OptionsSection(indent, command.options)
        + (if includeValues then ValuesText(indent, ProvidersOf(command.options, providers)) else "")
    else
      "";
    assert CommandText(indent, command, includeValues, providers) == Usage(command) + arguments + tail;
    assert tail == options + values by {
      if command.options == [] {
        Text.AppendEmpty(options);
      }
    }
    Text.Prepend4(before, Usage(command), arguments, options, values);
    Text.AppendAssoc(Usage(command) + arguments, options, values);
  }

  lemma CommandsWritten(before: string, text: string, indent: string, commands: seq<Command>, includeValues: bool,
      providers: seq<OptionValueProvider>, values: string)
    requires commands != []
    requires values == (if includeValues then ValuesText(indent, ProvidersOf(AllOptions(commands), providers)) else "")
    requires text == before + Heading("Commands") + CommandSummaries(indent, commands, CommandNameWidth(commands) + 1) + values
    ensures text == before + CommandsText(indent, commands, includeValues, providers)
  {
    var rows := CommandSummaries(indent, commands, CommandNameWidth(commands) + 1);
    Text.AppendAssoc(before + Heading("Commands"), rows, values);
    Text.AppendAssoc(before, Heading("Commands"), rows + values);
  }

  // ---------------------------------------------------------------- the writer

  /**
   * Writes help text to a sink. `indent` and `includeValues` are the writer's
   * options; `providers` lists the values of the options' meta values.
   */
  class HelpWriter {
    const writer: Text.TextSink
    const indent: string
    const includeValues: bool
    const providers: seq<OptionValueProvider>

    constructor (writer: Text.TextSink, indent: string, includeValues: bool, providers: seq<OptionValueProvider>)
      ensures this.writer == writer && this.indent == indent
      ensures this.includeValues == includeValues && this.providers == providers
    {
      this.writer := writer;
      this.indent := indent;
      this.includeValues := includeValues;
      this.providers := providers;
    }

    /** Writes `count` spaces one at a time; nothing when `count` is not positive. */
    method WriteSpaces(count: int)
      modifies writer
      ensures writer.text == old(writer.text) + Text.Spaces(count)
      ensures writer.disposed == old(writer.disposed)
    {
      var i := 0;
      while i < count
        invariant 0 <= i <= if count < 0 then 0 else count
        invariant writer.text == old(writer.text) + Text.Spaces(i)
        invariant writer.disposed == old(writer.disposed)
      {
        writer.Write(" ");
        i := i + 1;
      }
      assert Text.Spaces(i) == Text.Spaces(count);
    }

    method WriteHeading(value: string)
      modifies writer
      ensures writer.text == old(writer.text) + Heading(value)
      ensures writer.disposed == old(writer.disposed)
    {
      writer.Write(value);
      writer.WriteLine(":");
    }

    /**
     * The help of one command: usage, arguments, options and, when the writer
     * includes them, the values of the options. It fails (`ok` false) where
     * listing the values fails.
     */
    method WriteCommand(command: Command) returns (ok: bool)
      modifies writer
      ensures ok <==> CommandOk(command, includeValues, providers)
      ensures writer.text == old(writer.text) + CommandText(indent, command, includeValues, providers)
      ensures writer.disposed == old(writer.disposed)
    {
      WriteUsage(command);
      ghost var arguments := "";
      if command.arguments != [] {
        WriteArgumentTable(command.arguments);
        arguments := ArgumentsSection(indent, command.arguments);
      } else {
        Text.AppendEmpty(writer.text);
      }
      ghost var options := "";
      ghost var values := "";
      ok := true;
      if command.options != [] {
        WriteOptionTable(command.options);
        options := OptionsSection(indent, command.options);
        if includeValues {
          ok := WriteOptionValues(command.options);
          values := ValuesText(indent, ProvidersOf(command.options, providers));
        } else {
          Text.AppendEmpty(writer.text);
        }
      } else {
        Text.AppendEmpty(writer.text);
        Text.AppendEmpty(writer.text + "");
      }
      CommandWritten(old(writer.text), writer.text, indent, command, includeValues, providers, arguments, options, values);
    }

    /** The usage line: the command, its arguments with optional ones in brackets, and " [options]". */
    method WriteUsage(command: Command)
      modifies writer
      ensures writer.text == old(writer.text) + Usage(command)
      ensures writer.disposed == old(writer.disposed)
    {
      writer.Write("Usage: orang ");
      writer.Write(command.name);
      WriteArgumentsUsage(command.arguments);
      if command.options != [] {
        writer.Write(" [options]");
      }
      writer.WriteNewLine();
      UsageWritten(old(writer.text), writer.text, command);
    }

    /** Each argument after a space, an optional one in brackets. */
    method WriteArgumentsUsage(arguments: seq<CommandArgument>)
      modifies writer
      ensures writer.text == old(writer.text) + ArgumentsUsage(arguments)
      ensures writer.disposed == old(writer.disposed)
    {
      var i := 0;
      while i < |arguments|
        invariant 0 <= i <= |arguments|
        invariant writer.text == old(writer.text) + ArgumentsUsage(arguments[..i])
        invariant writer.disposed == old(writer.disposed)
      {
        var a := arguments[i];
        ghost var before := writer.text;
        writer.Write(" ");
        if !a.isRequired {
          writer.Write("[");
        }
        writer.Write(a.name);
        if !a.isRequired {
          writer.Write("]");
        }
        UsageArgumentWritten(before, writer.text, a);
        UsageStep(old(writer.text), writer.text, arguments, i);
        i := i + 1;
      }
      assert arguments[..i] == arguments;
    }

    /** The argument table under its heading; the longest name plus one sets the column. */
    method WriteArgumentTable(arguments: seq<CommandArgument>)
      requires arguments != []
      modifies writer
      ensures writer.text == old(writer.text) + ArgumentsSection(indent, arguments)
      ensures writer.disposed == old(writer.disposed)
    {
      writer.WriteNewLine();
      WriteHeading("Arguments");
      var anyOptional := AnyOptionalArgument(arguments);
      var maxWidth := ArgumentNameWidth(arguments) + 1;
      WriteArgumentRows(arguments, anyOptional, maxWidth);
      SectionWritten(old(writer.text), writer.text, "Arguments", ArgumentLines(indent, arguments, anyOptional, maxWidth));
    }

    method WriteArgumentRows(arguments: seq<CommandArgument>, anyOptional: bool, maxWidth: int)
      modifies writer
      ensures writer.text == old(writer.text) + ArgumentLines(indent, arguments, anyOptional, maxWidth)
      ensures writer.disposed == old(writer.disposed)
    {
      var i := 0;
      while i < |arguments|
        invariant 0 <= i <= |arguments|
        invariant writer.text == old(writer.text) + ArgumentLines(indent, arguments[..i], anyOptional, maxWidth)
        invariant writer.disposed == old(writer.disposed)
      {
        WriteArgument(arguments[i], anyOptional, maxWidth);
        ArgumentRowsStep(indent, old(writer.text), writer.text, arguments, i, anyOptional, maxWidth);
        i := i + 1;
      }
      assert arguments[..i] == arguments;
    }

    /** One argument row (the body of the argument loop). */
    method WriteArgument(a: CommandArgument, anyOptional: bool, maxWidth: int)
      modifies writer
      ensures writer.text == old(writer.text) + ArgumentLine(indent, a, anyOptional, maxWidth)
      ensures writer.disposed == old(writer.disposed)
    {
      ghost var open := if !a.isRequired then "[" else if anyOptional then " " else "";
      ghost var close := if !a.isRequired then "]" else "";
      writer.Write(indent);
      if !a.isRequired {
        writer.Write("[");
      } else if anyOptional {
        writer.Write(" ");
      } else {
        Text.AppendEmpty(writer.text);
      }
      writer.Write(a.name);
      if !a.isRequired {
        writer.Write("]");
      } else {
        Text.AppendEmpty(writer.text);
      }
      if a.description != "" {
        WriteSpaces(maxWidth - |a.name| + (if a.isRequired then 1 else 0));
        writer.WriteLine(a.description);
      }
      ArgumentWritten(old(writer.text), writer.text, indent, a, anyOptional, maxWidth, open, close);
    }

    /** The option table under its heading, with the columns sized over all the options. */
    method WriteOptionTable(options: seq<CommandOption>)
      requires options != []
      modifies writer
      ensures writer.text == old(writer.text) + OptionsSection(indent, options)
      ensures writer.disposed == old(writer.disposed)
    {
      writer.WriteNewLine();
      WriteHeading("Options");
      var anyOptional := AnyOptionalOption(options);
      var anyShortName := AnyShortName(options);
      var width1 := FirstColumnOf(options, anyOptional, anyShortName);
      var width2 := MetaWidth(options);
      WriteOptionRows(options, anyOptional, anyShortName, width1, width2);
      SectionWritten(old(writer.text), writer.text, "Options",
        OptionLines(indent, options, anyOptional, anyShortName, width1, width2));
    }

    /** The first column: the longest name plus 3, plus 2 for brackets, plus 4 for short names. */
    method FirstColumnOf(options: seq<CommandOption>, anyOptional: bool, anyShortName: bool) returns (width1: int)
      requires anyOptional == AnyOptionalOption(options) && anyShortName == AnyShortName(options)
      ensures width1 == FirstColumnWidth(options)
    {
      width1 := OptionNameWidth(options) + 3;
      if anyOptional {
        width1 := width1 + 2;
      }
      if anyShortName {
        width1 := width1 + 4;
      }
    }

    /**
     * The option rows. The builder holding each row's prefix is empty at the
     * start of every row: it is cleared once the prefix is written.
     */
    method WriteOptionRows(options: seq<CommandOption>, anyOptional: bool, anyShortName: bool, width1: int, width2: int)
      modifies writer
      ensures writer.text == old(writer.text) + OptionLines(indent, options, anyOptional, anyShortName, width1, width2)
      ensures writer.disposed == old(writer.disposed)
    {
      var sb := "";
      var i := 0;
      while i < |options|
        invariant 0 <= i <= |options|
        invariant sb == ""
        invariant writer.text == old(writer.text) + OptionLines(indent, options[..i], anyOptional, anyShortName, width1, width2)
        invariant writer.disposed == old(writer.disposed)
      {
        sb := WriteOption(options[i], anyOptional, anyShortName, width1, width2, sb);
        OptionRowsStep(indent, old(writer.text), writer.text, options, i, anyOptional, anyShortName, width1, width2);
        i := i + 1;
      }
      assert options[..i] == options;
    }

    /**
     * One option row (the body of the option loop), built with the shared
     * builder `sb`, which must be empty on entry and is handed back cleared.
     */
    method WriteOption(o: CommandOption, anyOptional: bool, anyShortName: bool, width1: int, width2: int, sb: string)
      returns (cleared: string)
      requires sb == ""
      modifies writer
      ensures cleared == ""
      ensures writer.text == old(writer.text) + OptionLine(indent, o, anyOptional, anyShortName, width1, width2)
      ensures writer.disposed == old(writer.disposed)
    {
      writer.Write(indent);
      var builder := BuildPrefix(o, anyOptional, anyShortName, sb);
      writer.Write(builder);
      WriteSpaces(width1 - |builder|);
      ghost var prefix := builder;
      cleared := "";
      WriteMetaCell(o, width2);
      writer.Write(" ");
      writer.Write(o.description);
      writer.WriteNewLine();
      OptionWritten(old(writer.text), writer.text, indent, o, anyOptional, anyShortName, width1, width2, prefix);
    }

    /** The option's prefix, appended piece by piece to the empty builder. */
    method BuildPrefix(o: CommandOption, anyOptional: bool, anyShortName: bool, sb: string) returns (builder: string)
      requires sb == ""
      ensures builder == OptionPrefix(o, anyOptional, anyShortName)
    {
      builder := sb;
      if !o.isRequired {
        builder := builder + "[";
      } else if anyOptional {
        builder := builder + " ";
      }
      if o.shortName != "" {
        builder := builder + "-";
        builder := builder + o.shortName;
        builder := builder + ", ";
      } else if anyShortName {
        builder := builder + "    ";
      }
      builder := builder + "--";
      builder := builder + o.name;
      if !o.isRequired {
        builder := builder + "]";
      }
      PrefixBuilt(o, anyOptional, anyShortName, builder);
    }

    /** The meta value padded to the meta column, or the whole column in spaces. */
    method WriteMetaCell(o: CommandOption, width2: int)
      modifies writer
      ensures writer.text == old(writer.text) + MetaCell(o, width2)
      ensures writer.disposed == old(writer.disposed)
    {
      if o.metaValue != "" {
        writer.Write(o.metaValue);
        WriteSpaces(width2 - |o.metaValue|);
        Text.AppendAssoc(old(writer.text), o.metaValue, Text.Spaces(width2 - |o.metaValue|));
      } else {
        WriteSpaces(width2);
      }
    }

    /**
     * The command list: a summary per command with the names padded one past
     * the longest, then the values of all their options. It fails (`ok`
     * false) for no commands, after the heading, and where listing the values
     * fails.
     */
    method WriteCommands(commands: seq<Command>) returns (ok: bool)
      modifies writer
      ensures ok <==> CommandsOk(commands, includeValues, providers)
      ensures writer.text == old(writer.text) + CommandsText(indent, commands, includeValues, providers)
      ensures writer.disposed == old(writer.disposed)
    {
      WriteHeading("Commands");
      if commands == [] {
        Text.AppendEmpty(Heading("Commands"));
        return false;
      }
      var maxWidth := CommandNameWidth(commands) + 1;
      WriteCommandSummaries(commands, maxWidth);
      ghost var values := "";
      ok := true;
      if includeValues {
        ok := WriteOptionValues(AllOptions(commands));
        values := ValuesText(indent, ProvidersOf(AllOptions(commands), providers));
      } else {
        Text.AppendEmpty(writer.text);
      }
      CommandsWritten(old(writer.text), writer.text, indent, commands, includeValues, providers, values);
    }

    method WriteCommandSummaries(commands: seq<Command>, columnWidth: int)
      modifies writer
      ensures writer.text == old(writer.text) + CommandSummaries(indent, commands, columnWidth)
      ensures writer.disposed == old(writer.disposed)
    {
      var i := 0;
      while i < |commands|
        invariant 0 <= i <= |commands|
        invariant writer.text == old(writer.text) + CommandSummaries(indent, commands[..i], columnWidth)
        invariant writer.disposed == old(writer.disposed)
      {
        WriteCommandSummary(commands[i], columnWidth);
        SummariesStep(indent, old(writer.text), writer.text, commands, i, columnWidth);
        i := i + 1;
      }
      assert commands[..i] == commands;
    }

    /** A command's name padded to the column, then its description. */
    method WriteCommandSummary(command: Command, columnWidth: int)
      modifies writer
      ensures writer.text == old(writer.text) + CommandSummary(indent, command, columnWidth)
      ensures writer.disposed == old(writer.disposed)
    {
      writer.Write(indent);
      writer.Write(command.name);
      WriteSpaces(columnWidth - |command.name|);
      writer.WriteLine(command.description);
      Text.Prepend4(old(writer.text), indent, command.name, Text.Spaces(columnWidth - |command.name|),
        command.description + Text.NewLine);
      Text.AppendAssoc(old(writer.text) + indent + command.name + Text.Spaces(columnWidth - |command.name|),
        command.description, Text.NewLine);
    }

    /** The values of the providers the options' meta values name, one provider per name. */
    method WriteOptionValues(options: seq<CommandOption>) returns (ok: bool)
      modifies writer
      ensures ok <==> ValuesOk(ProvidersOf(options, providers))
      ensures writer.text == old(writer.text) + ValuesText(indent, ProvidersOf(options, providers))
      ensures writer.disposed == old(writer.disposed)
    {
      ok := WriteValues(ProvidersOf(options, providers));
    }

    /**
     * The providers in name order, each with its visible values, the columns
     * sized over all of them. It fails (`ok` false) after the heading when no
     * provider has a visible value.
     */
    method WriteValues(ps: seq<OptionValueProvider>) returns (ok: bool)
      modifies writer
      ensures ok <==> ValuesOk(ps)
      ensures writer.text == old(writer.text) + ValuesText(indent, ps)
      ensures writer.disposed == old(writer.disposed)
    {
      var sorted := SortByName(ps);
      SortByNameSorted(ps);
      if sorted == [] {
        Text.AppendEmpty(writer.text);
        return true;
      }
      writer.WriteNewLine();
      WriteHeading("Values");
      var optionValues := VisibleValues(ps);
      if optionValues == [] {
        assert ValueBlocks(indent, ps) == "";
        Text.AppendEmpty(writer.text);
        ValuesWritten(old(writer.text), writer.text, indent, ps);
        return false;
      }
      var width2 := MaxValueWidth(optionValues) + 1;
      var width3 := MaxShortWidth(optionValues) + 1;
      ghost var start := writer.text;
      var i := 0;
      while i < |sorted|
        invariant 0 <= i <= |sorted|
        invariant writer.text == start + ProviderBlocks(indent, sorted[..i], width2, width3)
        invariant writer.disposed == old(writer.disposed)
      {
        WriteProvider(sorted[i], width2, width3);
        ProviderBlocksStep(indent, start, writer.text, sorted, i, width2, width3);
        i := i + 1;
      }
      assert sorted[..i] == sorted;
      assert ValueBlocks(indent, ps) == ProviderBlocks(indent, sorted, width2, width3);
      ValuesWritten(old(writer.text), writer.text, indent, ps);
      return true;
    }

    /** A provider's name on its own line after an empty one, then its visible values. */
    method WriteProvider(p: OptionValueProvider, width2: int, width3: int)
      modifies writer
      ensures writer.text == old(writer.text) + ProviderBlock(indent, p, width2, width3)
      ensures writer.disposed == old(writer.disposed)
    {
      writer.WriteNewLine();
      writer.WriteLine(p.name);
      WriteValueRows(p.values, width2, width3);
      ProviderWritten(old(writer.text), writer.text, indent, p, width2, width3);
    }

    /** A row per value, skipping the hidden ones. */
    method WriteValueRows(vs: seq<OptionValue>, width2: int, width3: int)
      modifies writer
      ensures writer.text == old(writer.text) + ValueLines(indent, Visible(vs), width2, width3)
      ensures writer.disposed == old(writer.disposed)
    {
      var j := 0;
      while j < |vs|
        invariant 0 <= j <= |vs|
        invariant writer.text == old(writer.text) + VisibleLines(indent, vs[..j], width2, width3)
        invariant writer.disposed == old(writer.disposed)
      {
        if !vs[j].hidden {
          WriteValue(vs[j], width2, width3);
        } else {
          Text.AppendEmpty(writer.text);
        }
        VisibleStep(indent, old(writer.text), writer.text, vs, j, width2, width3);
        j := j + 1;
      }
      assert vs[..j] == vs;
      VisibleLinesAre(indent, vs, width2, width3);
    }

    /** One value row: value, padding, short value and, when described, padding and description. */
    method WriteValue(v: OptionValue, width2: int, width3: int)
      modifies writer
      ensures writer.text == old(writer.text) + ValueLine(indent, v, width2, width3)
      ensures writer.disposed == old(writer.disposed)
    {
      writer.Write(indent);
      var value := ValueText(v);
      writer.Write(value);
      WriteSpaces(width2 - |value|);
      var shortValue := ShortText(v);
      writer.Write(shortValue);
      if v.description != "" {
        WriteSpaces(width3 - |shortValue|);
        writer.Write(v.description);
      }
      writer.WriteNewLine();
      ValueWritten(old(writer.text), writer.text, indent, v, width2, width3);
    }
  }
}
