/**
 * The options shared by the find-like commands: translating the tool's own
 * attribute flags into the runtime's file attribute bits, choosing what the
 * finder looks for, and the final assignments of TryParse.
 *
 * The value parsers (flag names, encodings, filters, full paths) are oracles:
 * their results are given to TryParse as a ParseResults value.
 */
module FindOptions {
  import opened Text

  /** The members of the tool's FileSystemAttributes flags enum. */
  datatype FileSystemAttribute =
    | ReadOnly | Hidden | System | Archive | Device | Normal | Temporary | SparseFile
    | ReparsePoint | Compressed | Offline | NotContentIndexed | Encrypted | IntegrityStream
    | NoScrubData | File | Directory | Empty

  /** A FileSystemAttributes value: the set of its flags. */
  type FileSystemAttributes = set<FileSystemAttribute>

  /** System.IO.FileAttributes, as its bits. */
  type FileAttributes = bv32

  /** The runtime's bit for each attribute that has one; File, Directory and Empty have none. */
  function TargetBit(a: FileSystemAttribute): FileAttributes
  {
    match a
    case ReadOnly => 0x1
    case Hidden => 0x2
    case System => 0x4
    case Archive => 0x20
    case Device => 0x40
    case Normal => 0x80
    case Temporary => 0x100
    case SparseFile => 0x200
    case ReparsePoint => 0x400
    case Compressed => 0x800
    case Offline => 0x1000
    case NotContentIndexed => 0x2000
    case Encrypted => 0x4000
    case IntegrityStream => 0x8000
    case NoScrubData => 0x20000
    case File => 0
    case Directory => 0
    case Empty => 0
  }

  /** The attributes GetFileAttributes translates, in the order it tests them. */
  const Translated: seq<FileSystemAttribute> :=
    [ReadOnly, Hidden, System, Archive, Device, Normal, Temporary, SparseFile,
     ReparsePoint, Compressed, Offline, NotContentIndexed, Encrypted, IntegrityStream, NoScrubData]

  /** The bit `attributes` contributes for attribute `a`. */
  function BitOf(attributes: FileSystemAttributes, a: FileSystemAttribute): FileAttributes
  {
    if a in attributes then TargetBit(a) else 0
  }

  /** The bits of the first `k` attributes of `order` present in `attributes`, or-ed together. */
  function Bits(attributes: FileSystemAttributes, order: seq<FileSystemAttribute>, k: nat): FileAttributes
    requires k <= |order|
  {
    if k == 0 then 0 else Bits(attributes, order, k - 1) | BitOf(attributes, order[k - 1])
  }

  /** GetFileAttributes's result as a function of its argument. */
  function FileAttributesOf(attributes: FileSystemAttributes): FileAttributes
  {
    Bits(attributes, Translated, |Translated|)
  }

  /** GetFileAttributes: one `|=` per translated attribute present, in the order of Translated. */
  method GetFileAttributes(attributes: FileSystemAttributes) returns (fileAttributes: FileAttributes)
    ensures fileAttributes == FileAttributesOf(attributes)
  {
    fileAttributes := 0;
    fileAttributes := Include(attributes, ReadOnly, fileAttributes);
    fileAttributes := Include(attributes, Hidden, fileAttributes);
    fileAttributes := Include(attributes, System, fileAttributes);
    fileAttributes := Include(attributes, Archive, fileAttributes);
    fileAttributes := Include(attributes, Device, fileAttributes);
    fileAttributes := Include(attributes, Normal, fileAttributes);
    fileAttributes := Include(attributes, Temporary, fileAttributes);
    fileAttributes := Include(attributes, SparseFile, fileAttributes);
    fileAttributes := Include(attributes, ReparsePoint, fileAttributes);
    fileAttributes := Include(attributes, Compressed, fileAttributes);
    fileAttributes := Include(attributes, Offline, fileAttributes);
    fileAttributes := Include(attributes, NotContentIndexed, fileAttributes);
    fileAttributes := Include(attributes, Encrypted, fileAttributes);
    fileAttributes := Include(attributes, IntegrityStream, fileAttributes);
    fileAttributes := Include(attributes, NoScrubData, fileAttributes);
    FileAttributesUnfolded(attributes);
  }

  /** `if (a is present) fileAttributes |= bit;` adds `a`'s bit exactly when `a` is present. */
  method Include(attributes: FileSystemAttributes, a: FileSystemAttribute, acc: FileAttributes) returns (r: FileAttributes)
    ensures r == acc | BitOf(attributes, a)
  {
    OrBitOf(attributes, a, acc);
    r := acc;
    if a in attributes {
      r := r | TargetBit(a);
    }
  }

  /** FileAttributesOf written out attribute by attribute. */
  lemma FileAttributesUnfolded(attributes: FileSystemAttributes)
    ensures FileAttributesOf(attributes) == (((((((((((((((0 | BitOf(attributes, ReadOnly)) | BitOf(attributes, Hidden)) | BitOf(attributes, System)) | BitOf(attributes, Archive)) | BitOf(attributes, Device)) | BitOf(attributes, Normal)) | BitOf(attributes, Temporary)) | BitOf(attributes, SparseFile)) | BitOf(attributes, ReparsePoint)) | BitOf(attributes, Compressed)) | BitOf(attributes, Offline)) | BitOf(attributes, NotContentIndexed)) | BitOf(attributes, Encrypted)) | BitOf(attributes, IntegrityStream)) | BitOf(attributes, NoScrubData))
  {
    BitsUnfolded(attributes, Translated);
  }

  lemma BitsUnfolded(attributes: FileSystemAttributes, order: seq<FileSystemAttribute>)
    requires |order| == 15
    requires order[0] == ReadOnly
    requires order[1] == Hidden
    requires order[2] == System
    requires order[3] == Archive
    requires order[4] == Device
    requires order[5] == Normal
    requires order[6] == Temporary
    requires order[7] == SparseFile
    requires order[8] == ReparsePoint
    requires order[9] == Compressed
    requires order[10] == Offline
    requires order[11] == NotContentIndexed
    requires order[12] == Encrypted
    requires order[13] == IntegrityStream
    requires order[14] == NoScrubData
    ensures Bits(attributes, order, 15) == (((((((((((((((0 | BitOf(attributes, ReadOnly)) | BitOf(attributes, Hidden)) | BitOf(attributes, System)) | BitOf(attributes, Archive)) | BitOf(attributes, Device)) | BitOf(attributes, Normal)) | BitOf(attributes, Temporary)) | BitOf(attributes, SparseFile)) | BitOf(attributes, ReparsePoint)) | BitOf(attributes, Compressed)) | BitOf(attributes, Offline)) | BitOf(attributes, NotContentIndexed)) | BitOf(attributes, Encrypted)) | BitOf(attributes, IntegrityStream)) | BitOf(attributes, NoScrubData))
  {
    BitsStep(attributes, order, 0);
    BitsStep(attributes, order, 1);
    BitsStep(attributes, order, 2);
    BitsStep(attributes, order, 3);
    BitsStep(attributes, order, 4);
    BitsStep(attributes, order, 5);
    BitsStep(attributes, order, 6);
    BitsStep(attributes, order, 7);
    BitsStep(attributes, order, 8);
    BitsStep(attributes, order, 9);
    BitsStep(attributes, order, 10);
    BitsStep(attributes, order, 11);
    BitsStep(attributes, order, 12);
    BitsStep(attributes, order, 13);
    BitsStep(attributes, order, 14);
  }

  /** The fold takes one more attribute of `order`. */
  lemma BitsStep(attributes: FileSystemAttributes, order: seq<FileSystemAttribute>, k: nat)
    requires k < |order|
    ensures Bits(attributes, order, k + 1) == Bits(attributes, order, k) | BitOf(attributes, order[k])
  {
  }

  lemma OrBitOf(attributes: FileSystemAttributes, a: FileSystemAttribute, acc: FileAttributes)
    ensures acc | BitOf(attributes, a) == if a in attributes then acc | TargetBit(a) else acc
  {
    if a !in attributes {
      assert BitOf(attributes, a) == 0;
      assert acc | 0 == acc;
    }
  }

  /** Every other translated attribute's bit is disjoint from that of a translated attribute `a`, which is not zero. */
  lemma TargetBitSeparate(a: FileSystemAttribute)
    requires a in Translated
    ensures TargetBit(a) != 0
    ensures forall i :: 0 <= i < |Translated| && Translated[i] != a ==> TargetBit(Translated[i]) & TargetBit(a) == 0
  {
    match a
    case ReadOnly =>
    case Hidden =>
    case System =>
    case Archive =>
    case Device =>
    case Normal =>
    case Temporary =>
    case SparseFile =>
    case ReparsePoint =>
    case Compressed =>
    case Offline =>
    case NotContentIndexed =>
    case Encrypted =>
    case IntegrityStream =>
    case NoScrubData =>
  }

  /** Attribute `a`'s bit is set among the first `k` exactly when `a` is among them and present. */
  lemma {:induction false} BitsHas(attributes: FileSystemAttributes, order: seq<FileSystemAttribute>, k: nat, a: FileSystemAttribute)
    requires k <= |order|
    requires TargetBit(a) != 0
    requires forall i :: 0 <= i < |order| && order[i] != a ==> TargetBit(order[i]) & TargetBit(a) == 0
    ensures Bits(attributes, order, k) & TargetBit(a) != 0 <==> a in order[..k] && a in attributes
    decreases k
  {
    if k > 0 {
      BitsHas(attributes, order, k - 1, a);
      BitOfMasked(attributes, order[k - 1], a);
      OrMasked(Bits(attributes, order, k - 1), BitOf(attributes, order[k - 1]), TargetBit(a));
      assert order[..k] == order[..k - 1] + [order[k - 1]];
    }
  }

  /** One attribute's contribution has `a`'s bit set exactly when it is `a` and `a` is present. */
  lemma BitOfMasked(attributes: FileSystemAttributes, e: FileSystemAttribute, a: FileSystemAttribute)
    requires TargetBit(a) != 0
    requires e != a ==> TargetBit(e) & TargetBit(a) == 0
    ensures BitOf(attributes, e) & TargetBit(a) != 0 <==> e == a && a in attributes
  {
    if e !in attributes {
      assert BitOf(attributes, e) == 0;
    } else if e == a {
      assert TargetBit(a) & TargetBit(a) == TargetBit(a);
    }
  }

  lemma OrMasked(b: FileAttributes, c: FileAttributes, bit: FileAttributes)
    ensures (b | c) & bit != 0 <==> b & bit != 0 || c & bit != 0
  {
    assert (b | c) & bit == (b & bit) | (c & bit);
  }

  /** Each translated target bit is set exactly when its attribute is present. */
  lemma FileAttributesBit(attributes: FileSystemAttributes, a: FileSystemAttribute)
    requires a in Translated
    ensures FileAttributesOf(attributes) & TargetBit(a) != 0 <==> a in attributes
  {
    TargetBitSeparate(a);
    BitsHas(attributes, Translated, |Translated|, a);
    assert Translated[..|Translated|] == Translated;
  }

  lemma BitOfUnion(a: FileSystemAttributes, b: FileSystemAttributes, e: FileSystemAttribute)
    ensures BitOf(a + b, e) == BitOf(a, e) | BitOf(b, e)
  {
  }

  /** Translation distributes over union: attributes may be translated one by one and or-ed. */
  lemma {:induction false} BitsUnion(a: FileSystemAttributes, b: FileSystemAttributes, order: seq<FileSystemAttribute>, k: nat)
    requires k <= |order|
    ensures Bits(a + b, order, k) == Bits(a, order, k) | Bits(b, order, k)
    decreases k
  {
    if k > 0 {
      BitsUnion(a, b, order, k - 1);
      BitOfUnion(a, b, order[k - 1]);
      var x, y := Bits(a, order, k - 1), Bits(b, order, k - 1);
      var u, v := BitOf(a, order[k - 1]), BitOf(b, order[k - 1]);
      assert (x | y) | (u | v) == (x | u) | (y | v);
    }
  }

  lemma FileAttributesUnion(a: FileSystemAttributes, b: FileSystemAttributes)
    ensures FileAttributesOf(a + b) == FileAttributesOf(a) | FileAttributesOf(b)
  {
    BitsUnion(a, b, Translated, |Translated|);
  }

  /** Attributes that `order` does not list do not change the bits. */
  lemma {:induction false} BitsIgnore(attributes: FileSystemAttributes, ignored: FileSystemAttributes, order: seq<FileSystemAttribute>, k: nat)
    requires k <= |order|
    requires forall i :: 0 <= i < |order| ==> order[i] !in ignored
    ensures Bits(attributes, order, k) == Bits(attributes - ignored, order, k)
    decreases k
  {
    if k > 0 {
      BitsIgnore(attributes, ignored, order, k - 1);
      assert order[k - 1] !in ignored;
    }
  }

  /** File, Directory and Empty have no runtime counterpart. */
  lemma FileAttributesIgnoreKinds(attributes: FileSystemAttributes)
    ensures FileAttributesOf(attributes) == FileAttributesOf(attributes - {File, Directory, Empty})
  {
    BitsIgnore(attributes, {File, Directory, Empty}, Translated, |Translated|);
  }

  // ---------------------------------------------------------------- search target and the Empty rule

  datatype SearchTarget = Files | Directories | All

  /** GetSearchTarget on the attributes parsed last. */
  function SearchTargetOf(attributes: FileSystemAttributes): (r: SearchTarget)
    ensures r == All <==> File in attributes && Directory in attributes
    ensures r == Directories <==> Directory in attributes && File !in attributes
    ensures r == Files <==> Directory !in attributes
  {
    if File in attributes then
      (if Directory in attributes then All else Files)
    else if Directory in attributes then Directories
    else Files
  }

  /** What TryParse does with the Empty flag: refuse it on both sides, set it, clear it, or leave it. */
  datatype EmptyRule = Conflict | SetEmpty(value: bool) | Keep

  function EmptyRuleOf(attributes: FileSystemAttributes, attributesToSkip: FileSystemAttributes): (r: EmptyRule)
    ensures r == Conflict <==> Empty in attributes && Empty in attributesToSkip
    ensures r == SetEmpty(true) <==> Empty in attributes && Empty !in attributesToSkip
    ensures r == SetEmpty(false) <==> Empty !in attributes && Empty in attributesToSkip
    ensures r == Keep <==> Empty !in attributes && Empty !in attributesToSkip
  {
    if Empty in attributes then
      (if Empty in attributesToSkip then Conflict else SetEmpty(true))
    else if Empty in attributesToSkip then SetEmpty(false)
    else Keep
  }

  /** The nullable Empty option after the rule is applied: set by SetEmpty, otherwise as it was. */
  function EmptyAfter(rule: EmptyRule, previous: Option<bool>): Option<bool>
  {
    match rule
    case SetEmpty(v) => Some(v)
    case _ => previous
  }

  // ---------------------------------------------------------------- TryParse

  /** An encoding, by identity. */
  type Encoding = nat

  /** A parsed name filter, by identity. */
  type Filter = nat

  /**
   * What the parsers return for one command line: None for a failure (the
   * parser has already reported it), otherwise the value.
   */
  datatype ParseResults = ParseResults(
    baseOk: bool,
    fullPaths: Option<seq<string>>,
    attributes: Option<FileSystemAttributes>,
    attributesToSkip: Option<FileSystemAttributes>,
    encoding: Option<Encoding>,
    directoryFilter: Option<Filter>,
    extensionFilter: Option<Filter>,
    currentDirectory: string)

  /** CommonFindCommandOptions: the fields TryParse assigns. */
  class CommonFindCommandOptions {
    var paths: seq<string>
    var directoryFilter: Option<Filter>
    var extensionFilter: Option<Filter>
    var attributes: FileAttributes
    var attributesToSkip: FileAttributes
    var recurseSubdirectories: bool
    var progress: bool
    var defaultEncoding: Option<Encoding>
    /** A nullable bool: None means files are not filtered by emptiness. */
    var empty: Option<bool>

    constructor ()
      ensures paths == [] && directoryFilter == None && extensionFilter == None
      ensures attributes == 0 && attributesToSkip == 0
      ensures !recurseSubdirectories && !progress && defaultEncoding == None && empty == None
    {
      paths := [];
      directoryFilter, extensionFilter := None, None;
      attributes, attributesToSkip := 0, 0;
      recurseSubdirectories, progress := false, false;
      defaultEncoding := None;
      empty := None;
    }
  }

  /** CommonFindCommandLineOptions: the raw option values and the attributes recorded by the last TryParse. */
  class CommonFindCommandLineOptions {
    const path: seq<string>
    const includeDirectory: seq<string>
    const extension: seq<string>
    const noRecurse: bool
    const progress: bool
    var fileSystemAttributes: FileSystemAttributes

    constructor (path: seq<string>, includeDirectory: seq<string>, extension: seq<string>, noRecurse: bool, progress: bool)
      ensures this.path == path && this.includeDirectory == includeDirectory && this.extension == extension
      ensures this.noRecurse == noRecurse && this.progress == progress && fileSystemAttributes == {}
    {
      this.path := path;
      this.includeDirectory := includeDirectory;
      this.extension := extension;
      this.noRecurse := noRecurse;
      this.progress := progress;
      fileSystemAttributes := {};
    }

    /** TryParsePaths: the given paths made full, or the current directory alone when none are given. */
    method TryParsePaths(parsed: ParseResults) returns (ok: bool, paths: seq<string>)
      ensures |path| == 0 ==> ok && paths == [parsed.currentDirectory]
      ensures |path| > 0 ==> ok == parsed.fullPaths.Some? && (ok ==> paths == parsed.fullPaths.value)
    {
      if |path| > 0 {
        match parsed.fullPaths
        case Some(full) => return true, full;
        case None => return false, [];
      }
      return true, [parsed.currentDirectory];
    }

    /** Whether every parser TryParse consults succeeds, and the Empty flag is not both required and skipped. */
    predicate Parses(parsed: ParseResults)
      reads this
    {
      parsed.baseOk
      && (|path| > 0 ==> parsed.fullPaths.Some?)
      && parsed.attributes.Some? && parsed.attributesToSkip.Some? && parsed.encoding.Some?
      && (|includeDirectory| > 0 ==> parsed.directoryFilter.Some?)
      && (|extension| > 0 ==> parsed.extensionFilter.Some?)
      && EmptyRuleOf(parsed.attributes.value, parsed.attributesToSkip.value) != Conflict
    }

    /**
     * TryParse: returns false, assigning nothing, on the first parser failure
     * or when Empty is both required and skipped; otherwise assigns every field
     * and records the parsed attributes for GetSearchTarget.
     */
    method TryParse(options: CommonFindCommandOptions, parsed: ParseResults) returns (ok: bool)
      modifies options, this`fileSystemAttributes
      ensures ok == Parses(parsed)
      ensures !ok ==> unchanged(options) && unchanged(this)
      ensures ok ==>
        && options.paths == (if |path| > 0 then parsed.fullPaths.value else [parsed.currentDirectory])
        && options.directoryFilter == (if |includeDirectory| > 0 then parsed.directoryFilter else None)
        && options.extensionFilter == (if |extension| > 0 then parsed.extensionFilter else None)
        && options.attributes == FileAttributesOf(parsed.attributes.value)
        && options.attributesToSkip == FileAttributesOf(parsed.attributesToSkip.value)
        && options.recurseSubdirectories == !noRecurse
        && options.progress == progress
        && options.defaultEncoding == parsed.encoding
        && options.empty == EmptyAfter(EmptyRuleOf(parsed.attributes.value, parsed.attributesToSkip.value), old(options.empty))
        && fileSystemAttributes == parsed.attributes.value
    {
      if !parsed.baseOk {
        return false;
      }
      var pathsOk, paths := TryParsePaths(parsed);
      if !pathsOk {
        return false;
      }
      if parsed.attributes.None? || parsed.attributesToSkip.None? || parsed.encoding.None? {
        return false;
      }
      var attributes := parsed.attributes.value;
      var attributesToSkip := parsed.attributesToSkip.value;
      var directoryFilter: Option<Filter> := None;
      if |includeDirectory| > 0 {
        if parsed.directoryFilter.None? {
          return false;
        }
        directoryFilter := parsed.directoryFilter;
      }
      var extensionFilter: Option<Filter> := None;
      if |extension| > 0 {
        if parsed.extensionFilter.None? {
          return false;
        }
        extensionFilter := parsed.extensionFilter;
      }
      var emptyOk := ApplyEmptyRule(options, attributes, attributesToSkip);
      if !emptyOk {
        return false;
      }
      Assign(options, paths, directoryFilter, extensionFilter, attributes, attributesToSkip, parsed.encoding);
      return true;
    }

    /** TryParse's assignments once every parser has succeeded. */
    method Assign(options: CommonFindCommandOptions, paths: seq<string>, directoryFilter: Option<Filter>, extensionFilter: Option<Filter>,
                  attributes: FileSystemAttributes, attributesToSkip: FileSystemAttributes, encoding: Option<Encoding>)
      modifies options`paths, options`directoryFilter, options`extensionFilter, options`attributes, options`attributesToSkip
      modifies options`recurseSubdirectories, options`progress, options`defaultEncoding, this`fileSystemAttributes
      ensures options.paths == paths && options.directoryFilter == directoryFilter && options.extensionFilter == extensionFilter
      ensures options.attributes == FileAttributesOf(attributes) && options.attributesToSkip == FileAttributesOf(attributesToSkip)
      ensures options.recurseSubdirectories == !noRecurse && options.progress == progress
      ensures options.defaultEncoding == encoding && fileSystemAttributes == attributes
    {
      options.paths := paths;
      options.directoryFilter := directoryFilter;
      options.extensionFilter := extensionFilter;
      AssignAttributes(options, attributes, attributesToSkip);
      options.recurseSubdirectories := !noRecurse;
      options.progress := progress;
      options.defaultEncoding := encoding;
      fileSystemAttributes := attributes;
    }

    /** The translated attribute masks. */
    static method AssignAttributes(options: CommonFindCommandOptions, attributes: FileSystemAttributes, attributesToSkip: FileSystemAttributes)
      modifies options`attributes, options`attributesToSkip
      ensures options.attributes == FileAttributesOf(attributes)
      ensures options.attributesToSkip == FileAttributesOf(attributesToSkip)
    {
      options.attributes := GetFileAttributes(attributes);
      options.attributesToSkip := GetFileAttributes(attributesToSkip);
    }

    /** The Empty flag: refused when both required and skipped, otherwise recorded as Empty's nullable value. */
    static method ApplyEmptyRule(options: CommonFindCommandOptions, attributes: FileSystemAttributes, attributesToSkip: FileSystemAttributes) returns (ok: bool)
      modifies options`empty
      ensures ok <==> EmptyRuleOf(attributes, attributesToSkip) != Conflict
      ensures options.empty == EmptyAfter(EmptyRuleOf(attributes, attributesToSkip), old(options.empty))
    {
      if Empty in attributes {
        if Empty in attributesToSkip {
          return false;
        }
        options.empty := Some(true);
      } else if Empty in attributesToSkip {
        options.empty := Some(false);
      }
      return true;
    }

    /** GetSearchTarget: All for files and directories, Directories for directories alone, Files otherwise. */
    function GetSearchTarget(): (r: SearchTarget)
      reads this
      ensures r == All <==> File in fileSystemAttributes && Directory in fileSystemAttributes
      ensures r == Directories <==> Directory in fileSystemAttributes && File !in fileSystemAttributes
      ensures r == Files <==> Directory !in fileSystemAttributes
    {
      SearchTargetOf(fileSystemAttributes)
    }
  }
}
