/**
 * Code Map: an outline of the open text built line by line from textual
 * patterns. Class lines (`class `) give foldable class rows; top-level
 * assignments, `def` lines, indented `def` lines and typed class attributes
 * give variable, function, method and property rows. Each row jumps to its
 * 1-based line. A search string filters the rows case-insensitively, display
 * switches hide whole kinds, and a class-type filter hides classes by base.
 *
 * The outline reads `line[4]` of any line containing ": " it examines; on a
 * line of four characters or fewer that raises IndexError and the draw stops
 * at that line (`IndexError` and `DrawError` below; the rows the host already
 * laid out for earlier lines are not kept in `DrawError`).
 */
module CodeMap {
  import opened Common
  import opened PyStr
  import opened Lists

  // ---------------------------------------------------------------
  // Class lines
  // ---------------------------------------------------------------

  /** A class line as parsed: its name and, when the line has both parentheses, its base. */
  datatype ClassHeader = ClassHeader(name: string, base: Option<string>)

  /** `parse_class_line`. */
  function ParseClassLine(line: string): (h: ClassHeader)
    ensures h.base.Some? <==> '(' in line && ')' in line
  {
    var name := Strip(RemoveAll(Strip(RemoveAll(BeforeFirst(line, '('), "class ")), ":"));
    if '(' in line && ')' in line then
      var pieces := Split(line, '(');
      ClassHeader(name, Some(Strip(RemoveAll(BeforeFirst(pieces[1], ')'), "bpy.types."))))
    else
      ClassHeader(name, None)
  }

  /** The name part of `class N...`: `class ` removed, stripped, `:` removed, stripped. */
  lemma ClassNamePart(name: string)
    requires IsIdentifier(name)
    ensures Strip(RemoveAll(Strip(RemoveAll("class " + name, "class ")), ":")) == name
  {
    var head := "class " + name;
    assert StartsWith(head, "class ") && head[6..] == name;
    assert ' ' !in name;
    RemoveAllAbsent(name, "class ", ' ');
    StripNoSpace(name);
    assert ':' !in name;
    RemoveAllAbsent(name, ":", ':');
  }

  /** Removing "bpy.types." from `B` or from `bpy.types.B` gives `B`. */
  lemma ModulePrefixRemoved(prefix: string, base: string)
    requires prefix == "" || prefix == "bpy.types."
    requires IsIdentifier(base)
    ensures RemoveAll(prefix + base, "bpy.types.") == base
  {
    assert '.' !in base;
    RemoveAllAbsent(base, "bpy.types.", '.');
    if prefix == "bpy.types." {
      assert StartsWith(prefix + base, "bpy.types.");
      assert (prefix + base)[|prefix|..] == base;
    } else {
      assert prefix + base == base;
    }
  }

  /** No ")" in `B` or `bpy.types.B`. */
  lemma NoCloseParenInBase(prefix: string, base: string)
    requires prefix == "" || prefix == "bpy.types."
    requires IsIdentifier(base)
    ensures ')' !in prefix + base
  {
    forall i | 0 <= i < |prefix + base| ensures (prefix + base)[i] != ')' {
      if |prefix| <= i { assert (prefix + base)[i] == base[i - |prefix|]; }
    }
  }

  /** The base part of `(B):` or `(bpy.types.B):`, read up to `)` with the module prefix removed. */
  lemma ClassBasePart(prefix: string, base: string)
    requires prefix == "" || prefix == "bpy.types."
    requires IsIdentifier(base)
    ensures Strip(RemoveAll(BeforeFirst(prefix + base + "):", ')'), "bpy.types.")) == base
  {
    assert prefix + base + "):" == (prefix + base) + [')'] + ":";
    NoCloseParenInBase(prefix, base);
    BeforeFirstAt(prefix + base, ')', ":");
    ModulePrefixRemoved(prefix, base);
    StripNoSpace(base);
  }

  /** No "(" in `class N`. */
  lemma NoParenInClassHead(name: string)
    requires IsIdentifier(name)
    ensures '(' !in "class " + name
  {
    var head := "class " + name;
    forall i | 0 <= i < |head| ensures head[i] != '(' {
      if i >= 6 { assert head[i] == name[i - 6]; }
    }
  }

  /** No "(" in `B):` or `bpy.types.B):`. */
  lemma NoParenInBaseTail(prefix: string, base: string)
    requires prefix == "" || prefix == "bpy.types."
    requires IsIdentifier(base)
    ensures '(' !in prefix + base + "):"
  {
    var tail := prefix + base + "):";
    forall i | 0 <= i < |tail| ensures tail[i] != '(' {
      if |prefix| <= i < |prefix| + |base| { assert tail[i] == base[i - |prefix|]; }
    }
  }

  /** `class N(B):` with an identifier name and a base written bare or as `bpy.types.B`
      parses back to `N` and `B`. */
  lemma ParseClassLineWithBase(name: string, qualified: bool, base: string)
    requires IsIdentifier(name) && IsIdentifier(base)
    ensures var prefix := if qualified then "bpy.types." else "";
            ParseClassLine("class " + name + "(" + prefix + base + "):") == ClassHeader(name, Some(base))
  {
    var prefix := if qualified then "bpy.types." else "";
    var head := "class " + name;
    var tail := prefix + base + "):";
    var line := head + ['('] + tail;
    assert "class " + name + "(" + prefix + base + "):" == line;
    NoParenInClassHead(name);
    NoParenInBaseTail(prefix, base);
    BeforeFirstAt(head, '(', tail);
    SplitSecond(head, '(', tail);
    assert '(' in line by { assert line[|head|] == '('; }
    assert ')' in line by { assert line[|line| - 2] == ')'; }
    ClassBasePart(prefix, base);
    ClassNamePart(name);
  }

  /** `class N:` parses to `N` with no base. */
  lemma ParseClassLineWithoutBase(name: string)
    requires IsIdentifier(name)
    ensures ParseClassLine("class " + name + ":") == ClassHeader(name, None)
  {
    var line := "class " + name + ":";
    var rest := name + ":";
    assert '(' !in line by {
      forall i | 0 <= i < |line| ensures line[i] != '(' {
        if 6 <= i < 6 + |name| { assert line[i] == name[i - 6]; }
      }
    }
    assert StartsWith(line, "class ") && line[6..] == rest;
    assert ' ' !in rest by {
      forall i | 0 <= i < |rest| ensures rest[i] != ' ' {
        if i < |name| { assert rest[i] == name[i]; }
      }
    }
    RemoveAllAbsent(rest, "class ", ' ');
    assert forall i :: 0 <= i < |rest| ==> !IsSpace(rest[i]) by {
      forall i | 0 <= i < |rest| ensures !IsSpace(rest[i]) {
        if i < |name| { assert rest[i] == name[i]; }
      }
    }
    StripNoSpace(rest);
    assert ':' !in name;
    RemoveAllSkip(name, ":", ":");
    assert RemoveAll(":", ":") == [];
    assert name + [] == name;
    StripNoSpace(name);
  }

  /** The class types of the class-type filter, and UNKNOWN. */
  datatype ClassType = Panel | Operator | PropertyGroup | UIList | AddonPreferences | Unknown

  /** `get_class_type`: the first of five names that occurs in the base; a class without
      a base makes the substring test raise, which `draw_class_row` turns into UNKNOWN.
      The type reported is the first in `TestOrder` whose name occurs, and UNKNOWN means
      that none of the five does. */
  function GetClassType(base: Option<string>): (t: ClassType)
    ensures base.None? ==> t == Unknown
    ensures t != Unknown ==> base.Some? && Contains(base.value, BaseName(t))
    ensures base.Some? && t == Unknown ==> forall k :: k != Unknown ==> !Contains(base.value, BaseName(k))
    ensures base.Some? ==> forall k :: TestOrder(k) < TestOrder(t) ==> !Contains(base.value, BaseName(k))
  {
    match base
    case None => Unknown
    case Some(b) =>
      if Contains(b, "Panel") then Panel
      else if Contains(b, "Operator") then Operator
      else if Contains(b, "PropertyGroup") then PropertyGroup
      else if Contains(b, "UIList") then UIList
      else if Contains(b, "AddonPreferences") then AddonPreferences
      else Unknown
  }

  /** The position of each type among `get_class_type`'s tests; UNKNOWN comes last. */
  function TestOrder(t: ClassType): nat {
    match t
    case Panel => 0
    case Operator => 1
    case PropertyGroup => 2
    case UIList => 3
    case AddonPreferences => 4
    case Unknown => 5
  }

  /** The base-class name each class type stands for. */
  function BaseName(t: ClassType): string {
    match t
    case Panel => "Panel"
    case Operator => "Operator"
    case PropertyGroup => "PropertyGroup"
    case UIList => "UIList"
    case AddonPreferences => "AddonPreferences"
    case Unknown => ""
  }

  /** A base starting with "Panel" is a panel: that name is tested first. */
  lemma PanelRecognised(b: string)
    requires StartsWith(b, "Panel")
    ensures GetClassType(Some(b)) == Panel
  {
  }

  /** A base starting with "Operator" and without a "P" cannot hold "Panel". */
  lemma OperatorRecognised(b: string)
    requires StartsWith(b, "Operator") && 'P' !in b
    ensures GetClassType(Some(b)) == Operator
  {
    MissingCharNotContained(b, "Panel", 'P');
  }

  lemma PropertyGroupRecognised(b: string)
    requires StartsWith(b, "PropertyGroup") && 'a' !in b && 'O' !in b
    ensures GetClassType(Some(b)) == PropertyGroup
  {
    MissingCharNotContained(b, "Panel", 'a');
    MissingCharNotContained(b, "Operator", 'O');
  }

  lemma UIListRecognised(b: string)
    requires StartsWith(b, "UIList") && 'P' !in b && 'O' !in b
    ensures GetClassType(Some(b)) == UIList
  {
    MissingCharNotContained(b, "Panel", 'P');
    MissingCharNotContained(b, "Operator", 'O');
    MissingCharNotContained(b, "PropertyGroup", 'P');
  }

  lemma AddonPreferencesRecognised(b: string)
    requires StartsWith(b, "AddonPreferences") && 'l' !in b && 'O' !in b && 'G' !in b && 'U' !in b
    ensures GetClassType(Some(b)) == AddonPreferences
  {
    MissingCharNotContained(b, "Panel", 'l');
    MissingCharNotContained(b, "Operator", 'O');
    MissingCharNotContained(b, "PropertyGroup", 'G');
    MissingCharNotContained(b, "UIList", 'U');
  }

  /** Each known base class is recognised as its own type, although the names are
      tested in a fixed order. */
  lemma GetClassTypeOfBaseName(t: ClassType)
    requires t != Unknown
    ensures GetClassType(Some(BaseName(t))) == t
  {
    var b := BaseName(t);
    assert StartsWith(b, b);
    match t
    case Panel => PanelRecognised(b);
    case Operator => OperatorRecognised(b);
    case PropertyGroup => PropertyGroupRecognised(b);
    case UIList => UIListRecognised(b);
    case AddonPreferences => AddonPreferencesRecognised(b);
  }

  /** The class-type filter of the preferences: ALL or one of the five base-class types.
      `Only(Unknown)` can be built here, although no preference value gives it; it would
      admit exactly the classes whose base is not recognised. */
  datatype ClassFilter = All | Only(kind: ClassType)

  predicate Admits(filter: ClassFilter, t: ClassType) {
    filter.All? || filter.kind == t
  }

  // ---------------------------------------------------------------
  // Helpers of the row drawers
  // ---------------------------------------------------------------

  /** `truncate_text` with the default limit 37: longer labels are cut and get "...". */
  function TruncateText(text: string): (r: string)
    ensures |r| <= 40
    ensures |text| <= 37 ==> r == text
    ensures |text| > 37 ==> |r| == 40 && r[..37] == text[..37] && r[37..] == "..."
  {
    var maxLength := 37;
    if |text| > maxLength then text[..maxLength] + "..." else text
  }

  /** Truncating a truncated label changes nothing. */
  lemma TruncateIdempotent(text: string)
    ensures TruncateText(TruncateText(text)) == TruncateText(text)
  {
    if |text| > 37 {
      var r := TruncateText(text);
      assert r[..37] == text[..37];
    }
  }

  /** A host version `(major, minor, patch)`. */
  datatype Version = Version(major: nat, minor: nat, patch: nat)

  /** Python's tuple order. */
  predicate AtLeast(v: Version, w: Version) {
    v.major > w.major ||
    (v.major == w.major && (v.minor > w.minor || (v.minor == w.minor && v.patch >= w.patch)))
  }

  /** `get_indentation`: twelve spaces from version 3.0.0 on, four before. */
  function GetIndentation(version: Version): (r: string)
    ensures |r| == if version.major >= 3 then 12 else 4
    ensures forall i :: 0 <= i < |r| ==> r[i] == ' '
  {
    if AtLeast(version, Version(3, 0, 0)) then "            " else "    "
  }

  /** `is_match`: the search occurs in the class name, or, for a class with members, in
      its line; both case-insensitively. */
  function IsMatch(search: string, className: string, line: string, hasMethods: bool): (r: bool)
    ensures |search| == 0 ==> r
    ensures !hasMethods ==> (r <==> Contains(Lower(className), Lower(search)))
  {
    ContainsEmpty(Lower(className));
    Contains(Lower(className), Lower(search)) || (hasMethods && Contains(Lower(line), Lower(search)))
  }

  /** `line.split(' ', 1)[1].split('(')[0]` of a `def` line. */
  function FunctionName(line: string): string {
    BeforeFirst(AfterFirst(line, ' '), '(')
  }

  /** The name of an indented `def` line, with `def ` removed and whitespace stripped. */
  function MethodName(line: string): string {
    Strip(RemoveAll(BeforeFirst(AfterFirst(line, ' '), '('), "def "))
  }

  /** `line.split()[0].split(':')[0]` of a property line. */
  function PropertyName(line: string): string {
    BeforeFirst(FirstWord(line), ':')
  }

  /** Characters of a name contain no whitespace, ':', '(' or '.'. */
  lemma IdentifierChars(name: string)
    requires IsIdentifier(name)
    ensures forall i :: 0 <= i < |name| ==> !IsSpace(name[i])
    ensures ' ' !in name && ':' !in name && '(' !in name && '.' !in name
  {
  }

  /** `def N(...` shows `N`. */
  lemma FunctionNameOfDef(name: string, rest: string)
    requires IsIdentifier(name)
    ensures FunctionName("def " + name + "(" + rest) == name
  {
    var line := "def " + name + "(" + rest;
    assert line == "def" + [' '] + (name + "(" + rest);
    BeforeFirstAt("def", ' ', name + "(" + rest);
    IdentifierChars(name);
    assert name + "(" + rest == name + ['('] + rest;
    BeforeFirstAt(name, '(', rest);
  }

  /** `    def N(...` shows `N`. */
  lemma MethodNameOfDef(name: string, rest: string)
    requires IsIdentifier(name)
    ensures MethodName("    def " + name + "(" + rest) == name
  {
    var line := "    def " + name + "(" + rest;
    var head := "   def " + name;
    assert line == [] + [' '] + (head + ['('] + rest);
    BeforeFirstAt([], ' ', head + ['('] + rest);
    assert '(' !in head by {
      forall i | 0 <= i < |head| ensures head[i] != '(' {
        if i >= 7 { assert head[i] == name[i - 7]; }
      }
    }
    BeforeFirstAt(head, '(', rest);
    DefRemoved(name);
  }

  /** `"   def N".replace("def ", "").strip()` is `N`. */
  lemma DefRemoved(name: string)
    requires IsIdentifier(name)
    ensures Strip(RemoveAll("   def " + name, "def ")) == name
  {
    IdentifierChars(name);
    assert "   def " + name == "   " + ("def " + name);
    RemoveAllSkip("   ", "def " + name, "def ");
    assert StartsWith("def " + name, "def ") && ("def " + name)[4..] == name;
    RemoveAllAbsent(name, "def ", ' ');
    RStripFixed("   " + name);
    LStripSpaces("   ", name);
    assert LStrip(name) == name;
  }

  /** `N = ...` at the top level shows `N`. */
  lemma VariableNameOfAssignment(name: string, rest: string)
    requires IsIdentifier(name)
    ensures FirstWord(name + " = " + rest) == name
  {
    IdentifierChars(name);
    assert LStrip(name + " = " + rest) == name + " = " + rest;
    TakeWordPrefix(name, " = " + rest);
    assert name + " = " + rest == name + (" = " + rest);
  }

  /** `    N: ...` in a class shows `N`. */
  lemma PropertyNameOfAnnotation(name: string, rest: string)
    requires IsIdentifier(name)
    ensures PropertyName("    " + name + ": " + rest) == name
  {
    IdentifierChars(name);
    var tail := name + ": " + rest;
    assert "    " + name + ": " + rest == "    " + tail;
    LStripSpaces("    ", tail);
    assert LStrip(tail) == tail;
    assert tail == (name + ":") + (" " + rest);
    TakeWordPrefix(name + ":", " " + rest);
    assert name + ":" == name + [':'] + [];
    BeforeFirstAt(name, ':', []);
  }

  /** The property functions whose name marks a line as a property. */
  const PropertyKeywords: seq<string> := [
    "BoolProperty", "BoolVectorProperty", "CollectionProperty",
    "EnumProperty", "FloatProperty", "FloatVectorProperty",
    "IntProperty", "IntVectorProperty", "PointerProperty",
    "RemoveProperty", "StringProperty"
  ]

  predicate HasPropertyKeyword(line: string) {
    exists k :: 0 <= k < |PropertyKeywords| && Contains(line, PropertyKeywords[k])
  }

  // ---------------------------------------------------------------
  // Does a class have members?
  // ---------------------------------------------------------------

  /** The outcome of a scan that may read past the end of a line. */
  datatype Probe = Found(yes: bool) | IndexError

  /** A line containing ": " that has no index 4. */
  predicate ShortAnnotation(line: string) {
    Contains(line, ": ") && |line| <= 4
  }

  /** A member line: an indented `def`, or a line with ": " whose fifth character is not
      whitespace. */
  predicate MemberLine(line: string) {
    StartsWith(line, "    def ") || (Contains(line, ": ") && |line| > 4 && !IsSpace(line[4]))
  }

  /** `has_methods` over the lines after a class line: stop at the next class line, answer
      yes at the first member line. */
  function MethodsAhead(lines: seq<string>): Probe
    decreases |lines|
  {
    if |lines| == 0 then Found(false)
    else if StartsWith(lines[0], "class ") then Found(false)
    else if StartsWith(lines[0], "    def ") then Found(true)
    else if ShortAnnotation(lines[0]) then IndexError
    else if MemberLine(lines[0]) then Found(true)
    else MethodsAhead(lines[1..])
  }

  /** A line the scan passes over. */
  predicate Quiet(line: string) {
    !StartsWith(line, "class ") && !MemberLine(line) && !ShortAnnotation(line)
  }

  /** The index of the first line the scan stops at, or the length when it stops at none. */
  function FirstStop(lines: seq<string>): (k: nat)
    ensures k <= |lines|
    ensures forall j :: 0 <= j < k ==> Quiet(lines[j])
    ensures k < |lines| ==> !Quiet(lines[k])
    decreases |lines|
  {
    if |lines| == 0 || !Quiet(lines[0]) then 0
    else
      var k := FirstStop(lines[1..]);
      assert forall j :: 1 <= j < k + 1 ==> lines[j] == lines[1..][j - 1];
      k + 1
  }

  /** The answer at the line the scan stops at: no at a class line, IndexError at a short
      annotated line, yes at a member line. */
  function Verdict(line: string): Probe {
    if StartsWith(line, "class ") then Found(false)
    else if ShortAnnotation(line) then IndexError
    else Found(true)
  }

  /** The scan's answer is decided by the first line that is not quiet: no when there is
      none or it is a class line, IndexError when it is a short annotated line, yes when it
      is a member line. */
  lemma {:induction false} MethodsAheadSpec(lines: seq<string>)
    ensures MethodsAhead(lines) ==
              if FirstStop(lines) == |lines| then Found(false) else Verdict(lines[FirstStop(lines)])
    decreases |lines|
  {
    if |lines| > 0 && Quiet(lines[0]) {
      MethodsAheadSpec(lines[1..]);
      assert FirstStop(lines) == FirstStop(lines[1..]) + 1;
    }
  }

  /** `has_methods` itself: the scan as a loop. */
  method HasMethods(lines: seq<string>) returns (r: Probe)
    ensures r == MethodsAhead(lines)
  {
    var k := 0;
    while k < |lines|
      invariant 0 <= k <= |lines|
      invariant MethodsAhead(lines) == MethodsAhead(lines[k..])
    {
      var l := lines[k];
      if StartsWith(l, "class ") {
        return Found(false);
      }
      if StartsWith(l, "    def ") {
        return Found(true);
      }
      if Contains(l, ": ") {
        if |l| <= 4 {
          return IndexError;
        }
        if !IsSpace(l[4]) {
          return Found(true);
        }
      }
      assert lines[k..][1..] == lines[k + 1..];
      k := k + 1;
    }
    return Found(false);
  }

  /** Without short annotated lines the scan cannot fail. */
  lemma {:induction false} MethodsAheadNeverFails(lines: seq<string>)
    requires forall i :: 0 <= i < |lines| ==> !ShortAnnotation(lines[i])
    ensures MethodsAhead(lines).Found?
    decreases |lines|
  {
    if |lines| > 0 {
      assert forall i :: 0 <= i < |lines[1..]| ==> !ShortAnnotation(lines[1..][i]) by {
        forall i | 0 <= i < |lines[1..]| ensures !ShortAnnotation(lines[1..][i]) {
          assert lines[1..][i] == lines[i + 1];
        }
      }
      MethodsAheadNeverFails(lines[1..]);
    }
  }

  // ---------------------------------------------------------------
  // The outline
  // ---------------------------------------------------------------

  /** The fold icon of a class row: blank without members, otherwise down when expanded
      and right when collapsed. */
  datatype Fold = NoMembers | Expanded | Collapsed

  function FoldOf(hasMethods: bool, expanded: bool): Fold {
    if !hasMethods then NoMembers else if expanded then Expanded else Collapsed
  }

  /** A row of the outline; `target` is the 1-based line it jumps to, `indented` whether a
      blank icon precedes it. */
  datatype Row =
    | ClassRow(name: string, fold: Fold, target: nat)
    | VariableRow(name: string, target: nat, indented: bool)
    | FunctionRow(name: string, target: nat, indented: bool)
    | MethodRow(name: string, target: nat)
    | PropertyRow(name: string, target: nat)

  /** The window-manager and preference state the outline depends on; `expanded` is the
      list of expanded class names. */
  datatype View = View(
    search: string,
    displayClasses: bool,
    displayVariables: bool,
    displayFunctions: bool,
    displayClassFunctions: bool,
    filter: ClassFilter,
    expanded: seq<string>)

  /** The outline: inactive without a text, or its rows, or the IndexError. */
  datatype Outline = Inactive | Rows(rows: seq<Row>) | DrawError

  /** The result of a class line: a row or none, and whether that class is expanded. */
  datatype Step = Step(row: Option<Row>, isClassName: bool) | StepError

  /** The result of any other line: a row or none. */
  datatype LineRow = Drawn(row: Option<Row>) | LineError

  /** Some line begins with `class `. */
  function AnyClassLine(lines: seq<string>): (r: bool)
    ensures r <==> exists k :: 0 <= k < |lines| && StartsWith(lines[k], "class ")
    decreases |lines|
  {
    if |lines| == 0 then false
    else if StartsWith(lines[|lines| - 1], "class ") then true
    else
      var r := AnyClassLine(lines[..|lines| - 1]);
      assert forall k :: 0 <= k < |lines| - 1 ==> lines[..|lines| - 1][k] == lines[k];
      r
  }

  /** The search occurs in the line, case-insensitively. */
  predicate SearchInLine(body: string, search: string) {
    Contains(Lower(body), Lower(search))
  }

  /** The search has a non-whitespace character. */
  predicate Searching(search: string) {
    Strip(search) != []
  }

  /** The row `draw_property_row` adds: only for a line naming a property function. */
  function PropertyRowFor(line: string, i: nat): Option<Row> {
    if HasPropertyKeyword(line) then Some(PropertyRow(TruncateText(PropertyName(line)), i + 1)) else None
  }

  /** A class line: parse it, scan the following lines for members, and draw it when it
      matches the search, classes are shown and the type filter admits its base. */
  function ClassStep(lines: seq<string>, i: nat, v: View): Step
    requires i < |lines|
  {
    var header := ParseClassLine(lines[i]);
    match MethodsAhead(lines[i + 1..])
    case IndexError => StepError
    case Found(hasMethods) =>
      var expanded := header.name in v.expanded;
      if IsMatch(v.search, header.name, lines[i], hasMethods) && v.displayClasses &&
         Admits(v.filter, GetClassType(header.base))
      then Step(Some(ClassRow(header.name, FoldOf(hasMethods, expanded), i + 1)), expanded)
      else Step(None, expanded)
  }

  /** The last branch, taken while searching: a property or an indented `def` anywhere. */
  function SearchRow(body: string, i: nat, v: View): LineRow {
    if Contains(body, ": ") && |body| <= 4 then LineError
    else if Contains(body, ": ") && !IsSpace(body[4]) && SearchInLine(body, v.search) then Drawn(PropertyRowFor(body, i))
    else if StartsWith(body, "    def ") && SearchInLine(body, v.search) then Drawn(Some(MethodRow(TruncateText(MethodName(body)), i + 1)))
    else Drawn(None)
  }

  /** Any line that is not a class line: the first branch whose test holds decides it. */
  function BodyRow(body: string, i: nat, v: View, isClassName: bool, hasClass: bool): LineRow {
    var searchInLine := SearchInLine(body, v.search);
    if Contains(body, " = ") && !StartsWith(body, " ") && !StartsWith(body, "#") && searchInLine && v.displayVariables then
      Drawn(Some(VariableRow(TruncateText(FirstWord(body)), i + 1, hasClass && !Searching(v.search))))
    else if StartsWith(body, "def ") && searchInLine && v.displayFunctions then
      Drawn(Some(FunctionRow(TruncateText(FunctionName(body)), i + 1, hasClass)))
    else if StartsWith(body, "    def ") && isClassName && searchInLine && v.displayClassFunctions then
      Drawn(Some(MethodRow(TruncateText(MethodName(body)), i + 1)))
    else if Contains(body, ": ") && isClassName && |body| <= 4 then
      LineError
    else if Contains(body, ": ") && isClassName && !IsSpace(body[4]) && !StartsWith(body, "#") && searchInLine && v.displayClassFunctions then
      Drawn(PropertyRowFor(body, i))
    else if Searching(v.search) then
      SearchRow(body, i, v)
    else
      Drawn(None)
  }

  /** One pass of the outline loop over line `i`; `isClassName` says whether the latest
      class is expanded. */
  function LineStep(lines: seq<string>, i: nat, v: View, isClassName: bool, hasClass: bool): Step
    requires i < |lines|
  {
    if StartsWith(lines[i], "class ") then ClassStep(lines, i, v)
    else
      match BodyRow(lines[i], i, v, isClassName, hasClass)
      case LineError => StepError
      case Drawn(row) => Step(row, isClassName)
  }

  /** The loop state after the first `n` lines. */
  datatype Progress = Running(rows: seq<Row>, isClassName: bool) | Failed

  function DrawPrefix(lines: seq<string>, n: nat, v: View, hasClass: bool): Progress
    requires n <= |lines|
  {
    if n == 0 then Running([], false)
    else
      match DrawPrefix(lines, n - 1, v, hasClass)
      case Failed => Failed
      case Running(rows, isClassName) =>
        match LineStep(lines, n - 1, v, isClassName, hasClass)
        case StepError => Failed
        case Step(row, next) => Running(if row.Some? then rows + [row.value] else rows, next)
  }

  /** `DrawHelper.draw` from the text on. */
  function CodeMapView(text: Option<seq<string>>, v: View): Outline {
    match text
    case None => Inactive
    case Some(lines) =>
      match DrawPrefix(lines, |lines|, v, AnyClassLine(lines))
      case Failed => DrawError
      case Running(rows, _) => Rows(rows)
  }

  /** The class branch of the loop. */
  method DrawClassLine(lines: seq<string>, i: nat, v: View) returns (s: Step)
    requires i < |lines|
    ensures s == ClassStep(lines, i, v)
  {
    var header := ParseClassLine(lines[i]);
    var probe := HasMethods(lines[i + 1..]);
    if probe.IndexError? {
      return StepError;
    }
    var expanded := header.name in v.expanded;
    s := Step(None, expanded);
    if IsMatch(v.search, header.name, lines[i], probe.yes) && v.displayClasses {
      var kind := GetClassType(header.base);
      if Admits(v.filter, kind) {
        s := Step(Some(ClassRow(header.name, FoldOf(probe.yes, expanded), i + 1)), expanded);
      }
    }
  }

  /** The other branches of the loop, in the order they are tested. */
  method DrawBodyLine(body: string, i: nat, v: View, isClassName: bool, hasClass: bool) returns (r: LineRow)
    ensures r == BodyRow(body, i, v, isClassName, hasClass)
  {
    var searchInLine := SearchInLine(body, v.search);
    var searching := Searching(v.search);
    if Contains(body, " = ") && !StartsWith(body, " ") && !StartsWith(body, "#") && searchInLine && v.displayVariables {
      return Drawn(Some(VariableRow(TruncateText(FirstWord(body)), i + 1, hasClass && !searching)));
    }
    if StartsWith(body, "def ") && searchInLine && v.displayFunctions {
      return Drawn(Some(FunctionRow(TruncateText(FunctionName(body)), i + 1, hasClass)));
    }
    if StartsWith(body, "    def ") && isClassName && searchInLine && v.displayClassFunctions {
      return Drawn(Some(MethodRow(TruncateText(MethodName(body)), i + 1)));
    }
    var colon := Contains(body, ": ");
    if colon && isClassName {
      if |body| <= 4 {
        return LineError;
      }
      if !IsSpace(body[4]) && !StartsWith(body, "#") && searchInLine && v.displayClassFunctions {
        return Drawn(PropertyRowFor(body, i));
      }
    }
    if !searching {
      return Drawn(None);
    }
    if colon {
      if |body| <= 4 {
        return LineError;
      }
      if !IsSpace(body[4]) && searchInLine {
        return Drawn(PropertyRowFor(body, i));
      }
    }
    if StartsWith(body, "    def ") && searchInLine {
      return Drawn(Some(MethodRow(TruncateText(MethodName(body)), i + 1)));
    }
    return Drawn(None);
  }

  /** One pass of the loop: the class branch or the others. */
  method DrawLine(lines: seq<string>, i: nat, v: View, isClassName: bool, hasClass: bool) returns (s: Step)
    requires i < |lines|
    ensures s == LineStep(lines, i, v, isClassName, hasClass)
  {
    if StartsWith(lines[i], "class ") {
      s := DrawClassLine(lines, i, v);
    } else {
      var r := DrawBodyLine(lines[i], i, v, isClassName, hasClass);
      s := if r.LineError? then StepError else Step(r.row, isClassName);
    }
  }

  /** A failed loop stays failed for one more line. */
  lemma FailedNext(lines: seq<string>, n: nat, v: View, hasClass: bool)
    requires n < |lines| && DrawPrefix(lines, n, v, hasClass).Failed?
    ensures DrawPrefix(lines, n + 1, v, hasClass).Failed?
  {
  }

  /** Once a line has failed, the whole outline has. */
  lemma {:induction false} FailedStays(lines: seq<string>, n: nat, m: nat, v: View, hasClass: bool)
    requires n <= m <= |lines| && DrawPrefix(lines, n, v, hasClass).Failed?
    ensures DrawPrefix(lines, m, v, hasClass).Failed?
    decreases m - n
  {
    if n < m {
      FailedNext(lines, n, v, hasClass);
      FailedStays(lines, n + 1, m, v, hasClass);
    }
  }

  /** `DrawHelper.draw`: the outline loop over the lines of the open text. */
  method Draw(text: Option<seq<string>>, v: View) returns (outline: Outline)
    ensures outline == CodeMapView(text, v)
  {
    if text.None? {
      return Inactive;
    }
    var lines := text.value;
    var hasClass := AnyClassLine(lines);
    var rows: seq<Row> := [];
    var isClassName := false;
    var i := 0;
    while i < |lines|
      invariant 0 <= i <= |lines|
      invariant DrawPrefix(lines, i, v, hasClass) == Running(rows, isClassName)
    {
      var s := DrawLine(lines, i, v, isClassName, hasClass);
      DrawPrefixNext(lines, i, v, hasClass, rows, isClassName, s);
      if s.StepError? {
        FailedStays(lines, i + 1, |lines|, v, hasClass);
        return DrawError;
      }
      if s.row.Some? {
        rows := rows + [s.row.value];
      }
      isClassName := s.isClassName;
      i := i + 1;
    }
    return Rows(rows);
  }

  // ---------------------------------------------------------------
  // What the rows say about their lines
  // ---------------------------------------------------------------

  /** A class row shows the parsed name of its class line, the fold state from the member
      scan and the expanded list, and appears only when classes are shown, the type filter
      admits the base and the search matches. */
  predicate ClassRowFits(lines: seq<string>, v: View, row: Row)
    requires row.ClassRow? && 1 <= row.target <= |lines|
  {
    var body := lines[row.target - 1];
    var header := ParseClassLine(body);
    var probe := MethodsAhead(lines[row.target..]);
    StartsWith(body, "class ") && v.displayClasses && row.name == header.name &&
    Admits(v.filter, GetClassType(header.base)) && probe.Found? &&
    IsMatch(v.search, row.name, body, probe.yes) &&
    row.fold == FoldOf(probe.yes, row.name in v.expanded)
  }

  /** Any other row is justified by its line: its kind's pattern, the search, the kind's
      display switch, and the name extracted from the line. */
  predicate BodyRowFits(body: string, v: View, hasClass: bool, row: Row) {
    var searchInLine := SearchInLine(body, v.search);
    match row
    case ClassRow(_, _, _) => false
    case VariableRow(name, _, indented) =>
      Contains(body, " = ") && !StartsWith(body, " ") && !StartsWith(body, "#") &&
      searchInLine && v.displayVariables && name == TruncateText(FirstWord(body)) &&
      indented == (hasClass && !Searching(v.search))
    case FunctionRow(name, _, indented) =>
      StartsWith(body, "def ") && searchInLine && v.displayFunctions &&
      name == TruncateText(FunctionName(body)) && indented == hasClass
    case MethodRow(name, _) =>
      StartsWith(body, "    def ") && searchInLine && (v.displayClassFunctions || Searching(v.search)) &&
      name == TruncateText(MethodName(body))
    case PropertyRow(name, _) =>
      Contains(body, ": ") && |body| > 4 && !IsSpace(body[4]) &&
      HasPropertyKeyword(body) && searchInLine && (v.displayClassFunctions || Searching(v.search)) &&
      name == TruncateText(PropertyName(body))
  }

  /** A row is justified by the line it jumps to. */
  predicate RowFits(lines: seq<string>, v: View, row: Row) {
    1 <= row.target <= |lines| &&
    if row.ClassRow? then ClassRowFits(lines, v, row)
    else !StartsWith(lines[row.target - 1], "class ") &&
         BodyRowFits(lines[row.target - 1], v, AnyClassLine(lines), row)
  }

  /** Rows fitting their lines, jumping to the first `n` lines, in strictly increasing order. */
  predicate RowsFit(lines: seq<string>, v: View, rows: seq<Row>, n: nat) {
    (forall k :: 0 <= k < |rows| ==> RowFits(lines, v, rows[k]) && rows[k].target <= n) &&
    (forall j, k :: 0 <= j < k < |rows| ==> rows[j].target < rows[k].target)
  }

  lemma ClassStepFits(lines: seq<string>, i: nat, v: View)
    requires i < |lines| && StartsWith(lines[i], "class ")
    ensures var s := ClassStep(lines, i, v);
            s.Step? && s.row.Some? ==>
              s.row.value.ClassRow? && s.row.value.target == i + 1 && ClassRowFits(lines, v, s.row.value)
  {
  }

  lemma SearchRowFits(body: string, i: nat, v: View, hasClass: bool)
    requires Searching(v.search)
    ensures var r := SearchRow(body, i, v);
            r.Drawn? && r.row.Some? ==> r.row.value.target == i + 1 && BodyRowFits(body, v, hasClass, r.row.value)
  {
  }

  lemma BodyRowFitsLine(body: string, i: nat, v: View, isClassName: bool, hasClass: bool)
    ensures var r := BodyRow(body, i, v, isClassName, hasClass);
            r.Drawn? && r.row.Some? ==> r.row.value.target == i + 1 && BodyRowFits(body, v, hasClass, r.row.value)
  {
    if Searching(v.search) {
      SearchRowFits(body, i, v, hasClass);
    }
  }

  /** A class row built from line `i` fits its line. */
  lemma ClassRowFitsAt(lines: seq<string>, i: nat, v: View, row: Row)
    requires i < |lines| && StartsWith(lines[i], "class ")
    requires row.ClassRow? && row.target == i + 1 && ClassRowFits(lines, v, row)
    ensures RowFits(lines, v, row)
  {
  }

  /** A body row built from a line `i` that is not a class line fits its line. */
  lemma BodyRowFitsAt(lines: seq<string>, i: nat, v: View, row: Row)
    requires i < |lines| && !StartsWith(lines[i], "class ")
    requires row.target == i + 1 && BodyRowFits(lines[i], v, AnyClassLine(lines), row)
    ensures RowFits(lines, v, row)
  {
  }

  /** A line's row fits that line. */
  lemma LineStepFits(lines: seq<string>, i: nat, v: View, isClassName: bool)
    requires i < |lines|
    ensures var s := LineStep(lines, i, v, isClassName, AnyClassLine(lines));
            s.Step? && s.row.Some? ==> RowFits(lines, v, s.row.value) && s.row.value.target == i + 1
  {
    var s := LineStep(lines, i, v, isClassName, AnyClassLine(lines));
    if StartsWith(lines[i], "class ") {
      var c := ClassStep(lines, i, v);
      assert s == c;
      ClassStepFits(lines, i, v);
      if c.Step? && c.row.Some? {
        ClassRowFitsAt(lines, i, v, c.row.value);
      }
    } else {
      var r := BodyRow(lines[i], i, v, isClassName, AnyClassLine(lines));
      BodyRowFitsLine(lines[i], i, v, isClassName, AnyClassLine(lines));
      if r.Drawn? && r.row.Some? {
        assert s == Step(r.row, isClassName);
        BodyRowFitsAt(lines, i, v, r.row.value);
      }
    }
  }

  /** Fitting rows still fit when one more line is read. */
  lemma RowsFitExtend(lines: seq<string>, v: View, rows: seq<Row>, n: nat)
    requires RowsFit(lines, v, rows, n)
    ensures RowsFit(lines, v, rows, n + 1)
  {
  }

  /** A row fitting the next line can be appended. */
  lemma RowsFitAppend(lines: seq<string>, v: View, rows: seq<Row>, row: Row, n: nat)
    requires RowsFit(lines, v, rows, n) && RowFits(lines, v, row) && row.target == n + 1
    ensures RowsFit(lines, v, rows + [row], n + 1)
  {
    var r := rows + [row];
    assert forall k :: 0 <= k < |rows| ==> r[k] == rows[k];
  }

  /** The loop state after one more line. */
  lemma DrawPrefixNext(lines: seq<string>, n: nat, v: View, hasClass: bool, rows: seq<Row>, isClassName: bool, s: Step)
    requires n < |lines|
    requires DrawPrefix(lines, n, v, hasClass) == Running(rows, isClassName)
    requires s == LineStep(lines, n, v, isClassName, hasClass)
    ensures s.StepError? ==> DrawPrefix(lines, n + 1, v, hasClass) == Failed
    ensures s.Step? && s.row.Some? ==> DrawPrefix(lines, n + 1, v, hasClass) == Running(rows + [s.row.value], s.isClassName)
    ensures s.Step? && s.row.None? ==> DrawPrefix(lines, n + 1, v, hasClass) == Running(rows, s.isClassName)
  {
  }

  /** Reading one more line keeps the rows fitting. */
  lemma StepKeepsFit(lines: seq<string>, n: nat, v: View, rows: seq<Row>, isClassName: bool)
    requires n < |lines|
    requires DrawPrefix(lines, n, v, AnyClassLine(lines)) == Running(rows, isClassName)
    requires RowsFit(lines, v, rows, n)
    ensures var p := DrawPrefix(lines, n + 1, v, AnyClassLine(lines));
            p.Running? ==> RowsFit(lines, v, p.rows, n + 1)
  {
    var hasClass := AnyClassLine(lines);
    LineStepFits(lines, n, v, isClassName);
    var s := LineStep(lines, n, v, isClassName, hasClass);
    DrawPrefixNext(lines, n, v, hasClass, rows, isClassName, s);
    if s.Step? {
      if s.row.Some? {
        RowsFitAppend(lines, v, rows, s.row.value, n);
      } else {
        RowsFitExtend(lines, v, rows, n);
      }
    }
  }

  lemma {:induction false} DrawPrefixFits(lines: seq<string>, n: nat, v: View)
    requires n <= |lines|
    ensures var p := DrawPrefix(lines, n, v, AnyClassLine(lines));
            p.Running? ==> RowsFit(lines, v, p.rows, n)
    decreases n
  {
    if n > 0 {
      DrawPrefixFits(lines, n - 1, v);
      match DrawPrefix(lines, n - 1, v, AnyClassLine(lines))
      case Running(rows, isClassName) =>
        StepKeepsFit(lines, n - 1, v, rows, isClassName);
      case Failed =>
        FailedNext(lines, n - 1, v, AnyClassLine(lines));
    }
  }

  /** Every row of a drawn outline is justified by its line, and the rows follow the text:
      at most one row per line, in line order. */
  lemma OutlineRowsFit(lines: seq<string>, v: View)
    ensures var o := CodeMapView(Some(lines), v);
            o.Rows? ==> RowsFit(lines, v, o.rows, |lines|)
  {
    DrawPrefixFits(lines, |lines|, v);
  }

  /** Kinds switched off never appear; methods and properties only while searching. */
  lemma HiddenKindsAbsent(lines: seq<string>, v: View, k: nat)
    requires CodeMapView(Some(lines), v).Rows? && k < |CodeMapView(Some(lines), v).rows|
    ensures var row := CodeMapView(Some(lines), v).rows[k];
            (!v.displayClasses ==> !row.ClassRow?) &&
            (!v.displayVariables ==> !row.VariableRow?) &&
            (!v.displayFunctions ==> !row.FunctionRow?) &&
            (!v.displayClassFunctions && !Searching(v.search) ==> !row.MethodRow? && !row.PropertyRow?)
  {
    OutlineRowsFit(lines, v);
    var row := CodeMapView(Some(lines), v).rows[k];
    assert RowFits(lines, v, row);
  }

  /** The outline is drawn whenever no line contains ": " within four characters. */
  lemma {:induction false} DrawSucceedsWithoutShortAnnotations(lines: seq<string>, v: View, n: nat)
    requires n <= |lines|
    requires forall i :: 0 <= i < |lines| ==> !ShortAnnotation(lines[i])
    ensures DrawPrefix(lines, n, v, AnyClassLine(lines)).Running?
    decreases n
  {
    if n > 0 {
      DrawSucceedsWithoutShortAnnotations(lines, v, n - 1);
      MembersFoundAfter(lines, n);
      var hasClass := AnyClassLine(lines);
      match DrawPrefix(lines, n - 1, v, hasClass)
      case Running(rows, isClassName) =>
        LineStepNoError(lines, n - 1, v, isClassName, hasClass);
        DrawPrefixNext(lines, n - 1, v, hasClass, rows, isClassName, LineStep(lines, n - 1, v, isClassName, hasClass));
    }
  }

  /** Without short annotations the member scan after any line succeeds. */
  lemma MembersFoundAfter(lines: seq<string>, n: nat)
    requires n <= |lines|
    requires forall i :: 0 <= i < |lines| ==> !ShortAnnotation(lines[i])
    ensures MethodsAhead(lines[n..]).Found?
  {
    forall i | 0 <= i < |lines[n..]| ensures !ShortAnnotation(lines[n..][i]) {
      assert lines[n..][i] == lines[n + i];
    }
    MethodsAheadNeverFails(lines[n..]);
  }

  /** A line that is not a short annotation, followed by lines whose member scan
      succeeds, does not break the loop. */
  lemma LineStepNoError(lines: seq<string>, i: nat, v: View, isClassName: bool, hasClass: bool)
    requires i < |lines| && !ShortAnnotation(lines[i]) && MethodsAhead(lines[i + 1..]).Found?
    ensures LineStep(lines, i, v, isClassName, hasClass).Step?
  {
    if !StartsWith(lines[i], "class ") {
      assert !BodyRow(lines[i], i, v, isClassName, hasClass).LineError?;
    }
  }

  /** A class followed by a four-character annotated line breaks the outline. */
  lemma ShortAnnotationBreaksOutline(v: View)
    ensures CodeMapView(Some(["class A:", "x: 1"]), v) == DrawError
  {
    var lines := ["class A:", "x: 1"];
    assert StartsWith(lines[0], "class ");
    assert lines[1..] == ["x: 1"];
    assert Contains("x: 1", ": ") by { assert StartsWith("x: 1"[1..], ": "); }
    assert !StartsWith("x: 1", "class ") && !StartsWith("x: 1", "    def ");
    assert MethodsAhead(lines[1..]) == IndexError;
    assert DrawPrefix(lines, 1, v, AnyClassLine(lines)) == Failed;
  }

  // ---------------------------------------------------------------
  // Expanding and collapsing classes
  // ---------------------------------------------------------------

  /** The list after toggling `value`: its first copy removed, or `value` appended. */
  function Toggled(items: seq<string>, value: string): seq<string> {
    if value in items then RemoveFirst(items, value) else items + [value]
  }

  /** Toggling a name kept at most once flips its membership, so a class row's fold icon
      flips between expanded and collapsed. */
  lemma ToggleFlips(items: seq<string>, value: string)
    requires multiset(items)[value] <= 1
    ensures value in Toggled(items, value) <==> value !in items
    ensures FoldOf(true, value in Toggled(items, value)) != FoldOf(true, value in items)
  {
    RemoveFirstSpec(items, value);
    if value in items {
      assert multiset(Toggled(items, value))[value] == 0;
    }
  }

  /** Toggling twice restores the multiset of names, and other names are never touched. */
  lemma ToggleTwice(items: seq<string>, value: string, other: string)
    requires multiset(items)[value] <= 1 && other != value
    ensures multiset(Toggled(Toggled(items, value), value)) == multiset(items)
    ensures multiset(Toggled(items, value))[other] == multiset(items)[other]
  {
    RemoveFirstSpec(items, value);
    var once := Toggled(items, value);
    if value in items {
      assert once == RemoveFirst(items, value);
      assert value !in once by {
        assert multiset(once)[value] == 0;
      }
      assert Toggled(once, value) == once + [value];
    } else {
      assert once == items + [value];
      RemoveFirstAt(once, |items|, value);
      assert once[..|items|] + once[|items| + 1..] == items;
      assert Toggled(once, value) == items;
    }
  }

  /** `window_manager.display_def_lines`, the names of the expanded classes. */
  class DisplayDefLines {
    var items: seq<string>

    constructor ()
      ensures items == []
    {
      items := [];
    }

    /** `CODE_MAP_OT_dynamic_toggle.execute`: remove the first item equal to the value,
        or add the value when there is none. */
    method Toggle(value: string)
      modifies this
      ensures items == Toggled(old(items), value)
    {
      var index := 0;
      while index < |items|
        invariant 0 <= index <= |items|
        invariant value !in items[..index]
      {
        if items[index] == value {
          RemoveFirstAt(items, index, value);
          items := items[..index] + items[index + 1..];
          return;
        }
        assert items[..index + 1] == items[..index] + [items[index]];
        index := index + 1;
      }
      assert items[..index] == items;
      items := items + [value];
    }
  }
}
