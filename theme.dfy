/**
 * The theme: a tree of named colour and size values with string leaves, a lookup of a dotted
 * path in it, and the CSS custom properties derived from it.
 */
module Theme {
  import opened Wrappers
  import opened Strings

  /** A theme object: a string value, or named entries in declaration order. */
  datatype ThemeNode = Leaf(value: string) | Group(entries: seq<(string, ThemeNode)>)

  /** The `theme` object: one named group per concern, in declaration order. */
  function AppTheme(): ThemeNode {
    Group([
      ("primary", PrimaryColors()), ("background", BackgroundColors()), ("text", TextColors()),
      ("border", BorderColors()), ("card", CardColors()), ("chart", ChartColors()), ("spacing", Spacing()),
      ("breakpoints", Breakpoints()), ("borderRadius", BorderRadius())
    ])
  }

  function PrimaryColors(): ThemeNode {
    Group([("light", Leaf("#6366f1")), ("DEFAULT", Leaf("#4f46e5")), ("dark", Leaf("#4338ca"))])
  }

  function BackgroundColors(): ThemeNode {
    Group([("light", Leaf("#f9fafb")), ("DEFAULT", Leaf("#111827")), ("dark", Leaf("#030712"))])
  }

  function TextColors(): ThemeNode {
    Group([("light", Leaf("#f9fafb")), ("muted", Leaf("#9ca3af")), ("dark", Leaf("#1f2937"))])
  }

  function BorderColors(): ThemeNode {
    Group([("light", Leaf("#374151")), ("DEFAULT", Leaf("#1f2937")), ("dark", Leaf("#111827"))])
  }

  function CardColors(): ThemeNode {
    Group([
      ("background", Group([("light", Leaf("#1f2937")), ("dark", Leaf("#111827"))])),
      ("border", Group([("light", Leaf("#374151")), ("dark", Leaf("#1f2937"))])),
      ("shadow", Group([
        ("light", Leaf("0 4px 6px -1px rgba(0, 0, 0, 0.2), 0 2px 4px -1px rgba(0, 0, 0, 0.1)")),
        ("dark", Leaf("0 10px 15px -3px rgba(0, 0, 0, 0.3), 0 4px 6px -2px rgba(0, 0, 0, 0.2)"))]))])
  }

  function ChartColors(): ThemeNode {
    Group([
      ("primary", Leaf("#6366f1")), ("secondary", Leaf("#10b981")), ("tertiary", Leaf("#f59e0b")),
      ("quaternary", Leaf("#ef4444")), ("grid", Leaf("#374151")), ("gridDark", Leaf("#1f2937")),
      ("text", Leaf("#9ca3af")), ("textDark", Leaf("#6b7280"))])
  }

  function Spacing(): ThemeNode {
    Group([
      ("xs", Leaf("0.25rem")), ("sm", Leaf("0.5rem")), ("md", Leaf("1rem")), ("lg", Leaf("1.5rem")),
      ("xl", Leaf("2rem")), ("2xl", Leaf("3rem"))])
  }

  function Breakpoints(): ThemeNode {
    Group([
      ("sm", Leaf("640px")), ("md", Leaf("768px")), ("lg", Leaf("1024px")), ("xl", Leaf("1280px")),
      ("2xl", Leaf("1536px"))])
  }

  function BorderRadius(): ThemeNode {
    Group([
      ("sm", Leaf("0.125rem")), ("DEFAULT", Leaf("0.25rem")), ("md", Leaf("0.375rem")), ("lg", Leaf("0.5rem")),
      ("xl", Leaf("0.75rem")), ("2xl", Leaf("1rem")), ("full", Leaf("9999px"))])
  }

  // ---------------------------------------------------------------------------
  // Property access, as `result[part]` behaves on the theme's objects and strings
  // ---------------------------------------------------------------------------

  predicate IsDigit(c: char) {
    '0' <= c <= '9'
  }

  function DecimalValue(s: string): nat
    requires forall i :: 0 <= i < |s| ==> IsDigit(s[i])
  {
    if s == [] then 0
    else
      var last := s[|s| - 1];
      assert IsDigit(last);
      10 * DecimalValue(s[..|s| - 1]) + (last as int - '0' as int)
  }

  /** A property name that indexes a string: a decimal numeral without leading zeros. */
  function CanonicalIndex(part: string): (r: Option<nat>)
    ensures r.Some? ==> part != [] && forall i :: 0 <= i < |part| ==> IsDigit(part[i])
  {
    if part != [] && (forall i :: 0 <= i < |part| ==> IsDigit(part[i])) && (part[0] != '0' || |part| == 1)
    then Some(DecimalValue(part))
    else None
  }

  /**
   * The value of the entry with that name, or `None` when no entry has it. Names within each
   * theme object are unique, so which of two namesakes wins (the last, in a JavaScript object
   * literal) never arises; the first is taken here.
   */
  function Lookup(entries: seq<(string, ThemeNode)>, part: string): (r: Option<ThemeNode>)
    ensures r.Some? ==> exists i :: 0 <= i < |entries| && entries[i].0 == part && r.value == entries[i].1
    ensures r.None? ==> forall i :: 0 <= i < |entries| ==> entries[i].0 != part
  {
    if entries == [] then None
    else if entries[0].0 == part then Some(entries[0].1)
    else
      var r := Lookup(entries[1..], part);
      assert forall i :: 0 < i < |entries| ==> entries[i] == entries[1..][i - 1];
      r
  }

  /** When the entry at `g` is the first with its name, the lookup finds it. */
  lemma {:induction false} LookupFirst(entries: seq<(string, ThemeNode)>, g: nat)
    requires g < |entries|
    requires forall j :: 0 <= j < g ==> entries[j].0 != entries[g].0
    ensures Lookup(entries, entries[g].0) == Some(entries[g].1)
  {
    if g > 0 {
      LookupFirst(entries[1..], g - 1);
    }
  }

  /**
   * `result[part]`: the entry of that name of an object, or the one-character string at that
   * index of a string; `None` is `undefined`.
   */
  function Member(node: ThemeNode, part: string): (r: Option<ThemeNode>)
    ensures node.Group? ==> (r.None? <==> forall i :: 0 <= i < |node.entries| ==> node.entries[i].0 != part)
    ensures node.Group? && r.Some? ==>
              exists i :: 0 <= i < |node.entries| && node.entries[i].0 == part && r.value == node.entries[i].1
    ensures node.Leaf? ==>
              (r.Some? <==> CanonicalIndex(part).Some? && CanonicalIndex(part).value < |node.value|)
    ensures node.Leaf? && r.Some? ==> r.value == Leaf([node.value[CanonicalIndex(part).value]])
  {
    match node
    case Group(entries) => Lookup(entries, part)
    case Leaf(s) =>
      (match CanonicalIndex(part)
       case Some(n) => if n < |s| then Some(Leaf([s[n]])) else None
       case None => None)
  }

  /** The value a sequence of property accesses reaches, or `None` once one is undefined. */
  function Resolve(node: ThemeNode, parts: seq<string>): Option<ThemeNode>
    decreases |parts|
  {
    if parts == [] then Some(node)
    else
      match Member(node, parts[0])
      case Some(child) => Resolve(child, parts[1..])
      case None => None
  }

  /** What `getThemeValue` returns: the string the dotted path reaches, and '' otherwise. */
  function ThemeValue(theme: ThemeNode, path: string): string {
    match Resolve(theme, Split(path, '.'))
    case Some(Leaf(v)) => v
    case _ => ""
  }

  /** `getThemeValue`: walks the path segment by segment, giving up at the first undefined one. */
  method GetThemeValue(theme: ThemeNode, path: string) returns (r: string)
    ensures r == ThemeValue(theme, path)
  {
    var parts := Split(path, '.');
    var result := theme;
    var i := 0;
    while i < |parts|
      invariant 0 <= i <= |parts|
      invariant Resolve(theme, parts) == Resolve(result, parts[i..])
    {
      assert parts[i..][1..] == parts[i + 1..];
      var next := Member(result, parts[i]);
      if next.None? {
        return "";
      }
      result := next.value;
      i := i + 1;
    }
    match result
    case Leaf(v) => r := v;
    case Group(_) => r := "";
  }

  // ---------------------------------------------------------------------------
  // Properties of the lookup
  // ---------------------------------------------------------------------------

  /** No object in the tree has an entry with the empty name. */
  predicate NoEmptyKeys(node: ThemeNode)
    decreases node
  {
    match node
    case Leaf(_) => true
    case Group(entries) => forall i :: 0 <= i < |entries| ==> entries[i].0 != "" && NoEmptyKeys(entries[i].1)
  }

  /** In a tree without empty names, a path with an empty segment reaches nothing. */
  lemma {:induction false} EmptySegmentUndefined(node: ThemeNode, parts: seq<string>)
    requires NoEmptyKeys(node)
    requires "" in parts
    ensures Resolve(node, parts) == None
    decreases |parts|
  {
    if parts[0] != "" {
      assert parts == [parts[0]] + parts[1..];
      match Member(node, parts[0])
      case None =>
      case Some(child) =>
        match node
        case Leaf(_) =>
          EmptySegmentUndefined(child, parts[1..]);
        case Group(entries) =>
          var i :| 0 <= i < |entries| && entries[i].0 == parts[0] && child == entries[i].1;
          EmptySegmentUndefined(child, parts[1..]);
    }
  }

  lemma ColourGroupsHaveNoEmptyKeys()
    ensures NoEmptyKeys(PrimaryColors()) && NoEmptyKeys(BackgroundColors())
    ensures NoEmptyKeys(TextColors()) && NoEmptyKeys(BorderColors())
  {
  }

  lemma CardHasNoEmptyKeys()
    ensures NoEmptyKeys(CardColors())
  {
  }

  lemma SizeGroupsHaveNoEmptyKeys()
    ensures NoEmptyKeys(ChartColors()) && NoEmptyKeys(Spacing())
    ensures NoEmptyKeys(Breakpoints()) && NoEmptyKeys(BorderRadius())
  {
  }

  lemma ThemeHasNoEmptyKeys()
    ensures NoEmptyKeys(AppTheme())
  {
    ColourGroupsHaveNoEmptyKeys();
    CardHasNoEmptyKeys();
    SizeGroupsHaveNoEmptyKeys();
  }

  /** The empty path and every path with an empty segment (such as `primary..DEFAULT`) give ''. */
  lemma EmptySegmentGivesEmptyString(path: string)
    requires "" in Split(path, '.')
    ensures ThemeValue(AppTheme(), path) == ""
  {
    ThemeHasNoEmptyKeys();
    EmptySegmentUndefined(AppTheme(), Split(path, '.'));
  }

  /** A path made of dot-free names that reaches a string gives that string. */
  lemma ResolvedLeafIsReturned(theme: ThemeNode, parts: seq<string>, v: string)
    requires |parts| >= 1 && forall k :: 0 <= k < |parts| ==> '.' !in parts[k]
    requires Resolve(theme, parts) == Some(Leaf(v))
    ensures ThemeValue(theme, Join(parts, '.')) == v
  {
    SplitJoin(parts, '.');
  }

  // The lemmas about single groups and single paths below are stated one at a time so that
  // each proof about a concrete path unfolds only the literal of the group it passes through.

  /** The colour groups are the theme's first four entries, each reached by its name. */
  lemma PrimaryGroup()
    ensures Member(AppTheme(), "primary") == Some(PrimaryColors())
  {
    LookupFirst(AppTheme().entries, 0);
  }

  lemma BackgroundGroup()
    ensures Member(AppTheme(), "background") == Some(BackgroundColors())
  {
    LookupFirst(AppTheme().entries, 1);
  }

  lemma TextGroup()
    ensures Member(AppTheme(), "text") == Some(TextColors())
  {
    LookupFirst(AppTheme().entries, 2);
  }

  lemma BorderGroup()
    ensures Member(AppTheme(), "border") == Some(BorderColors())
  {
    LookupFirst(AppTheme().entries, 3);
  }

  /** Past a group, a path resolves as its remaining segments do inside that group. */
  lemma ThroughGroup(theme: ThemeNode, group: string, node: ThemeNode, rest: seq<string>)
    requires Member(theme, group) == Some(node)
    ensures Resolve(theme, [group] + rest) == Resolve(node, rest)
  {
    assert ([group] + rest)[1..] == rest;
  }

  /** What the `primary` group gives for the example paths below it. */
  lemma PrimaryDefaultPaths()
    ensures Resolve(PrimaryColors(), []) == Some(PrimaryColors())
    ensures Resolve(PrimaryColors(), ["DEFAULT"]) == Some(Leaf("#4f46e5"))
    ensures Resolve(PrimaryColors(), ["DEFAULT", "0"]) == Some(Leaf("#"))
    ensures Resolve(PrimaryColors(), ["DEFAULT", "length"]) == None
  {
    assert ["DEFAULT", "0"][1..] == ["0"];
    assert ["DEFAULT", "length"][1..] == ["length"];
    assert CanonicalIndex("0") == Some(0);
    assert !IsDigit("length"[0]);
  }

  /** How the example paths split into segments. */
  lemma SegmentsOfPrimary()
    ensures Split("primary", '.') == ["primary"]
  {
    SplitWithoutSeparator("primary", '.');
  }

  lemma SegmentsOfPrimaryDefault()
    ensures Split("primary.DEFAULT", '.') == ["primary"] + ["DEFAULT"]
  {
    assert Join(["primary", "DEFAULT"], '.') == "primary.DEFAULT";
    SplitJoin(["primary", "DEFAULT"], '.');
  }

  lemma SegmentsOfPrimaryDefaultZero()
    ensures Split("primary.DEFAULT.0", '.') == ["primary"] + ["DEFAULT", "0"]
  {
    assert Join(["primary", "DEFAULT", "0"], '.') == "primary.DEFAULT.0";
    SplitJoin(["primary", "DEFAULT", "0"], '.');
  }

  lemma SegmentsOfPrimaryDefaultLength()
    ensures Split("primary.DEFAULT.length", '.') == ["primary"] + ["DEFAULT", "length"]
  {
    assert Join(["primary", "DEFAULT", "length"], '.') == "primary.DEFAULT.length";
    SplitJoin(["primary", "DEFAULT", "length"], '.');
  }

  lemma SegmentsOfDoubleDot()
    ensures Split("primary..DEFAULT", '.') == ["primary", "", "DEFAULT"]
  {
    assert Join(["primary", "", "DEFAULT"], '.') == "primary..DEFAULT";
    SplitJoin(["primary", "", "DEFAULT"], '.');
  }

  /** `primary.DEFAULT` names a string, which is returned. */
  lemma PrimaryDefaultIsLeaf()
    ensures ThemeValue(AppTheme(), "primary.DEFAULT") == "#4f46e5"
  {
    PrimaryGroup();
    SegmentsOfPrimaryDefault();
    PrimaryDefaultPaths();
    ThroughGroup(AppTheme(), "primary", PrimaryColors(), ["DEFAULT"]);
  }

  /** `primary` names an object, not a string, so '' is returned. */
  lemma PrimaryIsSubtree()
    ensures ThemeValue(AppTheme(), "primary") == ""
  {
    PrimaryGroup();
    SegmentsOfPrimary();
    PrimaryDefaultPaths();
    ThroughGroup(AppTheme(), "primary", PrimaryColors(), []);
    assert ["primary"] + [] == ["primary"];
  }

  /** Indexing into a string value: `primary.DEFAULT.0` gives its first character. */
  lemma PrimaryDefaultFirstCharacter()
    ensures ThemeValue(AppTheme(), "primary.DEFAULT.0") == "#"
  {
    PrimaryGroup();
    SegmentsOfPrimaryDefaultZero();
    PrimaryDefaultPaths();
    ThroughGroup(AppTheme(), "primary", PrimaryColors(), ["DEFAULT", "0"]);
  }

  /**
   * A name that is not a numeral gives no string on a string value: `primary.DEFAULT.length`
   * gives ''. (In JavaScript `length` is the number 7, not a string, so the final check yields
   * ''; the model has no number values and treats the name as undefined, with the same result.)
   */
  lemma StringPropertyIsUndefined()
    ensures ThemeValue(AppTheme(), "primary.DEFAULT.length") == ""
  {
    PrimaryGroup();
    SegmentsOfPrimaryDefaultLength();
    PrimaryDefaultPaths();
    ThroughGroup(AppTheme(), "primary", PrimaryColors(), ["DEFAULT", "length"]);
  }

  /** A doubled dot leaves an empty segment: `primary..DEFAULT` gives ''. */
  lemma DoubleDotGivesEmptyString()
    ensures ThemeValue(AppTheme(), "primary..DEFAULT") == ""
  {
    SegmentsOfDoubleDot();
    EmptySegmentGivesEmptyString("primary..DEFAULT");
  }

  // ---------------------------------------------------------------------------
  // CSS custom properties
  // ---------------------------------------------------------------------------

  /** The string a path reaches in the theme, or '' when it reaches none. */
  function LeafAt(theme: ThemeNode, parts: seq<string>): string {
    match Resolve(theme, parts)
    case Some(Leaf(v)) => v
    case _ => ""
  }

  /**
   * `cssVariables`: each variable name with the theme value its path names, in declaration
   * order; reading the paths from the theme gives exactly the colour table below.
   */
  function CssVariables(): (r: seq<(string, string)>)
    ensures r == ResolvedCssVariables()
  {
    PrimaryLeaves();
    BackgroundLeaves();
    TextLeaves();
    BorderLeaves();
    [ ("--color-primary", LeafAt(AppTheme(), ["primary", "DEFAULT"])),
      ("--color-primary-light", LeafAt(AppTheme(), ["primary", "light"])),
      ("--color-primary-dark", LeafAt(AppTheme(), ["primary", "dark"])),
      ("--color-background", LeafAt(AppTheme(), ["background", "DEFAULT"])),
      ("--color-background-dark", LeafAt(AppTheme(), ["background", "dark"])),
      ("--color-text", LeafAt(AppTheme(), ["text", "light"])),
      ("--color-text-dark", LeafAt(AppTheme(), ["text", "dark"])),
      ("--color-text-muted", LeafAt(AppTheme(), ["text", "muted"])),
      ("--color-border", LeafAt(AppTheme(), ["border", "DEFAULT"])),
      ("--color-border-dark", LeafAt(AppTheme(), ["border", "dark"])) ]
  }

  /** A two-segment path through a group is a lookup inside that group. */
  lemma GroupKey(theme: ThemeNode, group: string, node: ThemeNode, key: string)
    requires Member(theme, group) == Some(node)
    ensures Resolve(theme, [group, key]) == Member(node, key)
  {
    assert [group, key][1..] == [key];
    assert [key][1..] == [];
    match Member(node, key) {
      case Some(child) =>
        assert Resolve(child, []) == Some(child);
        assert Resolve(node, [key]) == Some(child);
      case None =>
    }
  }

  /** The colour strings the CSS variables read, each reached by its `group.key` path. */
  lemma PrimaryLeaves()
    ensures Resolve(AppTheme(), ["primary", "DEFAULT"]) == Some(Leaf("#4f46e5"))
    ensures Resolve(AppTheme(), ["primary", "light"]) == Some(Leaf("#6366f1"))
    ensures Resolve(AppTheme(), ["primary", "dark"]) == Some(Leaf("#4338ca"))
  {
    PrimaryGroup();
    GroupKey(AppTheme(), "primary", PrimaryColors(), "DEFAULT");
    GroupKey(AppTheme(), "primary", PrimaryColors(), "light");
    GroupKey(AppTheme(), "primary", PrimaryColors(), "dark");
  }

  lemma BackgroundLeaves()
    ensures Resolve(AppTheme(), ["background", "DEFAULT"]) == Some(Leaf("#111827"))
    ensures Resolve(AppTheme(), ["background", "dark"]) == Some(Leaf("#030712"))
  {
    BackgroundGroup();
    GroupKey(AppTheme(), "background", BackgroundColors(), "DEFAULT");
    GroupKey(AppTheme(), "background", BackgroundColors(), "dark");
  }

  lemma TextLeaves()
    ensures Resolve(AppTheme(), ["text", "light"]) == Some(Leaf("#f9fafb"))
    ensures Resolve(AppTheme(), ["text", "dark"]) == Some(Leaf("#1f2937"))
    ensures Resolve(AppTheme(), ["text", "muted"]) == Some(Leaf("#9ca3af"))
  {
    TextGroup();
    GroupKey(AppTheme(), "text", TextColors(), "light");
    GroupKey(AppTheme(), "text", TextColors(), "dark");
    GroupKey(AppTheme(), "text", TextColors(), "muted");
  }

  lemma BorderLeaves()
    ensures Resolve(AppTheme(), ["border", "DEFAULT"]) == Some(Leaf("#1f2937"))
    ensures Resolve(AppTheme(), ["border", "dark"]) == Some(Leaf("#111827"))
  {
    BorderGroup();
    GroupKey(AppTheme(), "border", BorderColors(), "DEFAULT");
    GroupKey(AppTheme(), "border", BorderColors(), "dark");
  }

  /** The CSS variables' names and the colour strings they resolve to, in declaration order. */
  function ResolvedCssVariables(): seq<(string, string)> {
    [ ("--color-primary", "#4f46e5"), ("--color-primary-light", "#6366f1"), ("--color-primary-dark", "#4338ca"),
      ("--color-background", "#111827"), ("--color-background-dark", "#030712"),
      ("--color-text", "#f9fafb"), ("--color-text-dark", "#1f2937"), ("--color-text-muted", "#9ca3af"),
      ("--color-border", "#1f2937"), ("--color-border-dark", "#111827") ]
  }

  /** One declaration line: `key: value;`. */
  function CssLine(entry: (string, string)): string {
    entry.0 + ": " + entry.1 + ";"
  }

  /** The lines of a variable list, one per entry, in order. */
  function CssLines(vars: seq<(string, string)>): seq<string> {
    seq(|vars|, i requires 0 <= i < |vars| => CssLine(vars[i]))
  }

  /** `Object.entries(vars).map(...).join('\n')`. */
  function CssText(vars: seq<(string, string)>): string {
    Join(CssLines(vars), '\n')
  }

  /**
   * `getCssVariables`: the text splits back into exactly one `name: value;` line per CSS
   * variable, in declaration order, with no empty or trailing line.
   */
  function GetCssVariables(): (r: string)
    ensures Split(r, '\n') == CssLines(ResolvedCssVariables())
  {
    ResolvedCssLines(CssVariables());
    CssText(CssVariables())
  }

  /**
   * When no name or value contains a line break, the text splits back into exactly one
   * `key: value;` line per entry, in order: so no trailing newline and no empty line.
   */
  lemma {:induction false} CssTextLines(vars: seq<(string, string)>)
    requires |vars| >= 1
    requires forall i :: 0 <= i < |vars| ==> '\n' !in vars[i].0 && '\n' !in vars[i].1
    ensures Split(CssText(vars), '\n') == CssLines(vars)
    ensures forall i :: 0 <= i < |vars| ==> Split(CssText(vars), '\n')[i] == vars[i].0 + ": " + vars[i].1 + ";"
  {
    var lines := CssLines(vars);
    forall k | 0 <= k < |lines| ensures '\n' !in lines[k] {
      assert lines[k] == vars[k].0 + ": " + vars[k].1 + ";";
    }
    SplitJoin(lines, '\n');
  }

  lemma PrimaryCssLine()
    ensures CssLine(("--color-primary", "#4f46e5")) == "--color-primary: #4f46e5;"
  {
  }

  /** The colour table's text splits back into one declaration line per entry. */
  lemma ResolvedCssLines(vars: seq<(string, string)>)
    requires vars == ResolvedCssVariables()
    ensures Split(CssText(vars), '\n') == CssLines(vars)
  {
    forall i | 0 <= i < |vars| ensures '\n' !in vars[i].0 && '\n' !in vars[i].1 {
    }
    CssTextLines(vars);
  }

  /** `getCssVariables` has exactly ten lines; the first is `--color-primary: #4f46e5;`. */
  lemma GetCssVariablesLines()
    ensures |Split(GetCssVariables(), '\n')| == 10
    ensures Split(GetCssVariables(), '\n')[0] == "--color-primary: #4f46e5;"
  {
    PrimaryCssLine();
  }
}
