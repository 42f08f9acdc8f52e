/** core/config.h and core/config.cpp: typed settings read from an XML
    document and filed in a std::map under the hash of their dotted name.

    The parsed document is a tree of elements (tag, attributes, child
    elements); loading the file is not modelled. Attribute texts are taken
    to hold no NUL, so strcmp equality is sequence equality. The Win32
    build is assumed (unsigned int has 32 bits) with assertions compiled
    out, so a duplicate name returns false instead of stopping. */
module Configuration {
  import opened Wrappers
  import opened OrderedMap
  import StringHashing

  const GroupLabel: string := "Group"
  const ElementLabel: string := "Element"
  const NameLabel: string := "Name"
  const TypeLabel: string := "Type"
  const ValueLabel: string := "Value"

  const TypeString: string := "String"
  const TypeBoolean: string := "Boolean"
  const TypeUInt: string := "Unsigned Int"

  /** The number of values of a 32-bit unsigned int. */
  const UIntRange: nat := 0x1_0000_0000

  /** A stored ConfigElement<T>, by its T. getValue gives back the value
      the element was constructed with, which is the field here. */
  datatype ConfigValue =
    | StringElement(text: string)
    | BoolElement(b: bool)
    | UIntElement(u: nat)

  /** The T a caller of getElement asks for. */
  datatype ElementType = AsString | AsBool | AsUInt

  /** A parsed XML element: tag, attributes and child elements in order. */
  datatype XmlElement = XmlElement(tag: string, attributes: map<string, string>, children: seq<XmlElement>)

  // ---------------------------------------------------------------------
  // sscanf_s(text, "%d", &value)

  /** The characters isspace accepts. */
  predicate IsSpace(c: char) {
    c == ' ' || c == '\t' || c == '\n' || c as int == 11 || c as int == 12 || c == '\r'
  }

  predicate IsDigit(c: char) {
    '0' as int <= c as int <= '9' as int
  }

  /** The text after its leading white space. */
  function SkipSpace(s: string): (r: string)
    ensures |r| <= |s| && r == s[|s| - |r|..]
    ensures forall i :: 0 <= i < |s| - |r| ==> IsSpace(s[i])
    ensures r == [] || !IsSpace(r[0])
  {
    if s != [] && IsSpace(s[0]) then SkipSpace(s[1..]) else s
  }

  /** The number of leading decimal digits. */
  function DigitCount(s: string): (n: nat)
    ensures n <= |s|
    ensures forall i :: 0 <= i < n ==> IsDigit(s[i])
    ensures n < |s| ==> !IsDigit(s[n])
  {
    if s != [] && IsDigit(s[0]) then 1 + DigitCount(s[1..]) else 0
  }

  /** The value of a string of decimal digits, most significant first. */
  function DigitsValue(ds: string): nat
    requires forall i :: 0 <= i < |ds| ==> IsDigit(ds[i])
  {
    if ds == [] then 0
    else assert IsDigit(ds[|ds| - 1]); 10 * DigitsValue(ds[..|ds| - 1]) + (ds[|ds| - 1] as int - '0' as int)
  }

  /** What the %d conversion reports: a converted value (sscanf returns
      1), no digits where the number should start (returns 0), or the end
      of the text before anything but white space (returns EOF, -1). */
  datatype ScanResult = Scanned(value: int) | MatchFailure | InputFailure

  /** The return value of sscanf_s for the result. */
  function ScanCount(r: ScanResult): int {
    match r
    case Scanned(_) => 1
    case MatchFailure => 0
    case InputFailure => -1
  }

  /** The digits part of %d: the longest run of digits, negated after a
      minus sign; no digits is a matching failure. */
  function ScanDigits(body: string, negative: bool): ScanResult {
    var n := DigitCount(body);
    if n == 0 then MatchFailure
    else
      var magnitude: int := DigitsValue(body[..n]);
      Scanned(if negative then -magnitude else magnitude)
  }

  /** %d: white space, an optional sign, then the longest run of digits. */
  function ScanInt(text: string): ScanResult {
    var t := SkipSpace(text);
    if t == [] then InputFailure
    else if t[0] == '-' then ScanDigits(t[1..], true)
    else if t[0] == '+' then ScanDigits(t[1..], false)
    else ScanDigits(t, false)
  }

  /** The decimal text of a natural number, as printf's %u writes it. */
  function DecimalText(n: nat): (s: string)
    ensures |s| > 0 && forall i :: 0 <= i < |s| ==> IsDigit(s[i])
  {
    var d := ['0' + (n % 10) as char];
    if n < 10 then d else DecimalText(n / 10) + d
  }

  /** Scanning the decimal text of a number gives the number back. */
  lemma {:induction false} DigitsValueOfDecimal(n: nat)
    ensures DigitsValue(DecimalText(n)) == n
  {
    var s := DecimalText(n);
    if n >= 10 {
      DigitsValueOfDecimal(n / 10);
      assert s[..|s| - 1] == DecimalText(n / 10);
    }
  }

  /** Round trip: %d reads back the decimal text of any natural number,
      with or without leading white space. */
  lemma ScanDecimal(spaces: string, n: nat)
    requires forall i :: 0 <= i < |spaces| ==> IsSpace(spaces[i])
    ensures ScanInt(spaces + DecimalText(n)) == Scanned(n)
  {
    var s := DecimalText(n);
    SkipSpaces(spaces, s);
    assert IsDigit(s[0]);
    ScanAllDigits(s);
    DigitsValueOfDecimal(n);
  }

  lemma ScanAllDigits(s: string)
    requires s != [] && forall i :: 0 <= i < |s| ==> IsDigit(s[i])
    ensures ScanDigits(s, false) == Scanned(DigitsValue(s))
  {
    DigitCountAll(s);
    assert s[..|s|] == s;
  }

  lemma {:induction false} SkipSpaces(spaces: string, s: string)
    requires forall i :: 0 <= i < |spaces| ==> IsSpace(spaces[i])
    requires s == [] || !IsSpace(s[0])
    ensures SkipSpace(spaces + s) == s
  {
    if spaces != [] {
      assert (spaces + s)[1..] == spaces[1..] + s;
      SkipSpaces(spaces[1..], s);
    }
  }

  lemma {:induction false} DigitCountAll(s: string)
    requires forall i :: 0 <= i < |s| ==> IsDigit(s[i])
    ensures DigitCount(s) == |s|
  {
    if s != [] {
      DigitCountAll(s[1..]);
    }
  }

  // ---------------------------------------------------------------------
  // addElementOfType

  /** The element addElementOfType builds for a type name and value text,
      or None when it returns false without adding: "String" keeps the
      text, "Boolean" is true only for exactly "True", "Unsigned Int"
      stores what %d read as an unsigned int and fails only when sscanf_s
      returns 0, and any other type fails. */
  function ElementOfType(typeName: string, valueText: string): (r: Option<ConfigValue>)
    ensures typeName == TypeString ==> r == Some(StringElement(valueText))
    ensures typeName == TypeBoolean ==> r == Some(BoolElement(valueText == "True"))
    ensures typeName == TypeUInt ==> (r.None? <==> ScanCount(ScanInt(valueText)) == 0)
    ensures typeName == TypeUInt && r.Some? ==> r.value.UIntElement? && r.value.u < UIntRange
    ensures typeName == TypeUInt && ScanInt(valueText).Scanned? ==> r == Some(UIntElement(ScanInt(valueText).value % UIntRange))
    ensures typeName == TypeUInt && ScanInt(valueText).InputFailure? ==> r == Some(UIntElement(0))
    ensures typeName != TypeString && typeName != TypeBoolean && typeName != TypeUInt ==> r.None?
  {
    if typeName == TypeString then Some(StringElement(valueText))
    else if typeName == TypeBoolean then Some(BoolElement(valueText == "True"))
    else if typeName == TypeUInt then
      match ScanInt(valueText)
      case Scanned(v) => Some(UIntElement(v % UIntRange))
      case InputFailure => Some(UIntElement(0))
      case MatchFailure => None
    else None
  }

  /** sscanf_s reports the end of input (EOF) exactly when the text is
      blank. */
  lemma BlankScansAsEnd(text: string)
    ensures ScanInt(text) == InputFailure <==> forall i :: 0 <= i < |text| ==> IsSpace(text[i])
  {
    var t := SkipSpace(text);
    if t != [] {
      assert text[|text| - |t|] == t[0];
    }
  }

  /** As written, a blank "Unsigned Int" value is not rejected: sscanf_s
      returns EOF, which is not 0, and the untouched 0 is stored. */
  lemma BlankUIntStoresZero(valueText: string)
    requires forall i :: 0 <= i < |valueText| ==> IsSpace(valueText[i])
    ensures ElementOfType(TypeUInt, valueText) == Some(UIntElement(0))
  {
    BlankScansAsEnd(valueText);
  }

  /** addElementOfType as evidently intended: an "Unsigned Int" is stored
      only when sscanf_s converted a number. */
  function ElementOfTypeIntended(typeName: string, valueText: string): (r: Option<ConfigValue>)
    ensures typeName == TypeUInt ==> (r.Some? <==> ScanInt(valueText).Scanned?)
    ensures typeName == TypeUInt && r.Some? ==> r == Some(UIntElement(ScanInt(valueText).value % UIntRange))
    ensures typeName != TypeUInt ==> r == ElementOfType(typeName, valueText)
  {
    if typeName == TypeUInt && ScanCount(ScanInt(valueText)) != 1 then None
    else ElementOfType(typeName, valueText)
  }

  /** The intended version refuses blank text and still reads every
      number written in decimal. */
  lemma IntendedUIntNeedsDigits(valueText: string, spaces: string, n: nat)
    requires forall i :: 0 <= i < |valueText| ==> IsSpace(valueText[i])
    requires forall i :: 0 <= i < |spaces| ==> IsSpace(spaces[i])
    ensures ElementOfTypeIntended(TypeUInt, valueText).None?
    ensures ElementOfTypeIntended(TypeUInt, spaces + DecimalText(n)) == Some(UIntElement(n % UIntRange))
  {
    BlankScansAsEnd(valueText);
    ScanDecimal(spaces, n);
  }

  /** The element filed under a name's hash, if any. */
  function Stored(m: seq<Entry<ConfigValue>>, name: string): (r: Option<ConfigValue>)
    ensures r.None? <==> StringHashing.Hash(name) !in Keys(m)
    ensures r.Some? ==> Entry(StringHashing.Hash(name), r.value) in m
  {
    match Find(m, StringHashing.Hash(name))
    case None => None
    case Some(i) => Some(m[i].value)
  }

  /** addElementOfType on the map: fails, adding nothing, when the name's
      hash is taken or the type and text give no element. */
  function AddOfType(m: seq<Entry<ConfigValue>>, name: string, typeName: string, valueText: string): (r: (bool, seq<Entry<ConfigValue>>))
    requires Sorted(m)
    ensures Sorted(r.1)
    ensures r.0 <==> Stored(m, name).None? && ElementOfType(typeName, valueText).Some?
    ensures r.0 ==> r.1 == Insert(m, StringHashing.Hash(name), ElementOfType(typeName, valueText).value)
    ensures !r.0 ==> r.1 == m
  {
    InsertSorted(m, StringHashing.Hash(name), StringElement(""));
    if Find(m, StringHashing.Hash(name)).Some? then (false, m)
    else
      match ElementOfType(typeName, valueText)
      case None => (false, m)
      case Some(v) =>
        InsertSorted(m, StringHashing.Hash(name), v);
        (true, Insert(m, StringHashing.Hash(name), v))
  }

  /** An element added under a fresh name is read back as the value it was
      given, and every other name keeps what it had. */
  lemma AddThenGet(m: seq<Entry<ConfigValue>>, name: string, v: ConfigValue, other: string)
    requires Sorted(m) && Stored(m, name).None?
    requires StringHashing.Hash(other) != StringHashing.Hash(name)
    ensures Stored(Insert(m, StringHashing.Hash(name), v), name) == Some(v)
    ensures Stored(Insert(m, StringHashing.Hash(name), v), other) == Stored(m, other)
  {
    var h := StringHashing.Hash(name);
    var r := Insert(m, h, v);
    InsertContents(m, h, v);
    InsertSorted(m, h, v);
    InsertKeys(m, h, v);
    match Find(m, StringHashing.Hash(other))
    case None =>
    case Some(i) =>
      assert m[i] in r;
      var j :| 0 <= j < |r| && r[j] == m[i];
      FindUnique(r, StringHashing.Hash(other), j);
  }

  // ---------------------------------------------------------------------
  // parseValue and parseGroups

  /** The key parseValue files an element under: the group, a dot, the
      element's name. An element outside any group gets a leading dot. */
  function KeyName(group: string, name: string): (k: string)
    ensures k == group + "." + name
    ensures |k| == |group| + 1 + |name| && k[|group|] == '.'
  {
    group + "." + name
  }

  /** The name parseGroups passes down for a nested group: the parent, a
      dot, the group's name, or just the name at top level. */
  function GroupName(parent: string, name: string): (g: string)
    ensures parent == [] ==> g == name
    ensures parent != [] ==> g == parent + "." + name && g[|parent|] == '.'
  {
    if |parent| > 0 then parent + "." + name else name
  }

  /** parseValue on the map: None when the element has no Name, whose
      text is appended before the attributes are checked (undefined
      behaviour); false when Type or Value is missing; otherwise
      addElementOfType under the key name. */
  function ParseValueStep(group: string, e: XmlElement, m: seq<Entry<ConfigValue>>): (r: Option<(bool, seq<Entry<ConfigValue>>)>)
    requires Sorted(m)
    ensures r.None? <==> NameLabel !in e.attributes
    ensures r.Some? ==> Sorted(r.value.1)
    ensures r.Some? && (TypeLabel !in e.attributes || ValueLabel !in e.attributes) ==> r == Some((false, m))
  {
    if NameLabel !in e.attributes then None
    else if TypeLabel in e.attributes && ValueLabel in e.attributes then
      Some(AddOfType(m, KeyName(group, e.attributes[NameLabel]), e.attributes[TypeLabel], e.attributes[ValueLabel]))
    else Some((false, m))
  }

  /** parseGroups over an element and its following siblings: Elements
      are parsed with parseValue, named Groups recursively under their
      dotted name, anything else is skipped; the first failure ends the
      walk with false, keeping what was added before it. None when the
      walk reaches an Element without a Name. */
  function ParseElements(parent: string, siblings: seq<XmlElement>, m: seq<Entry<ConfigValue>>): (r: Option<(bool, seq<Entry<ConfigValue>>)>)
    requires Sorted(m)
    ensures r.Some? ==> Sorted(r.value.1)
    decreases siblings
  {
    if siblings == [] then Some((true, m))
    else
      var child := siblings[0];
      if child.tag == ElementLabel then
        match ParseValueStep(parent, child, m)
        case None => None
        case Some((ok, m1)) => if !ok then Some((false, m1)) else ParseElements(parent, siblings[1..], m1)
      else if child.tag == GroupLabel && NameLabel in child.attributes then
        match ParseElements(GroupName(parent, child.attributes[NameLabel]), child.children, m)
        case None => None
        case Some((ok, m1)) => if !ok then Some((false, m1)) else ParseElements(parent, siblings[1..], m1)
      else ParseElements(parent, siblings[1..], m)
  }

  /** Whatever parseGroups does, it never removes or changes an element
      that was already there. */
  lemma {:induction false} ParseKeepsElements(parent: string, siblings: seq<XmlElement>, m: seq<Entry<ConfigValue>>, name: string)
    requires Sorted(m) && ParseElements(parent, siblings, m).Some? && Stored(m, name).Some?
    ensures Stored(ParseElements(parent, siblings, m).value.1, name) == Stored(m, name)
    decreases siblings
  {
    if siblings != [] {
      var child := siblings[0];
      if child.tag == ElementLabel {
        var m1 := ParseValueStep(parent, child, m).value.1;
        AddKeepsElement(m, child, parent, name);
        if ParseValueStep(parent, child, m).value.0 {
          ParseKeepsElements(parent, siblings[1..], m1, name);
        }
      } else if child.tag == GroupLabel && NameLabel in child.attributes {
        var g := GroupName(parent, child.attributes[NameLabel]);
        ParseKeepsElements(g, child.children, m, name);
        var m1 := ParseElements(g, child.children, m).value.1;
        if ParseElements(g, child.children, m).value.0 {
          ParseKeepsElements(parent, siblings[1..], m1, name);
        }
      } else {
        ParseKeepsElements(parent, siblings[1..], m, name);
      }
    }
  }

  lemma AddKeepsElement(m: seq<Entry<ConfigValue>>, e: XmlElement, group: string, name: string)
    requires Sorted(m) && ParseValueStep(group, e, m).Some? && Stored(m, name).Some?
    ensures Stored(ParseValueStep(group, e, m).value.1, name) == Stored(m, name)
  {
    var r := ParseValueStep(group, e, m).value;
    if r.0 {
      var key := KeyName(group, e.attributes[NameLabel]);
      AddThenGet(m, key, ElementOfType(e.attributes[TypeLabel], e.attributes[ValueLabel]).value, name);
    }
  }

  /** The dotted key names of the Elements a walk visits, in order, down to
      and including the first one that fails or lacks an attribute. */
  function ElementKeys(parent: string, siblings: seq<XmlElement>): (keys: seq<string>)
    decreases siblings
  {
    if siblings == [] then []
    else
      var child := siblings[0];
      var rest := ElementKeys(parent, siblings[1..]);
      if child.tag == ElementLabel && NameLabel in child.attributes then
        [KeyName(parent, child.attributes[NameLabel])] + rest
      else if child.tag == GroupLabel && NameLabel in child.attributes then
        ElementKeys(GroupName(parent, child.attributes[NameLabel]), child.children) + rest
      else rest
  }

  /** A walk that succeeds has filed an element under every key name of
      the Elements below it. */
  lemma {:induction false} ParseFilesEveryElement(parent: string, siblings: seq<XmlElement>, m: seq<Entry<ConfigValue>>)
    requires Sorted(m) && ParseElements(parent, siblings, m).Some? && ParseElements(parent, siblings, m).value.0
    ensures forall k :: k in ElementKeys(parent, siblings) ==> Stored(ParseElements(parent, siblings, m).value.1, k).Some?
    decreases siblings
  {
    if siblings != [] {
      var child := siblings[0];
      var rest := ElementKeys(parent, siblings[1..]);
      var result := ParseElements(parent, siblings, m).value.1;
      if child.tag == ElementLabel {
        var key := KeyName(parent, child.attributes[NameLabel]);
        var m1 := ParseValueStep(parent, child, m).value.1;
        ParseFilesEveryElement(parent, siblings[1..], m1);
        assert Stored(m1, key).Some? by {
          var v := ElementOfType(child.attributes[TypeLabel], child.attributes[ValueLabel]).value;
          InsertKeys(m, StringHashing.Hash(key), v);
        }
        ParseKeepsElements(parent, siblings[1..], m1, key);
      } else if child.tag == GroupLabel && NameLabel in child.attributes {
        var g := GroupName(parent, child.attributes[NameLabel]);
        var m1 := ParseElements(g, child.children, m).value.1;
        ParseFilesEveryElement(g, child.children, m);
        ParseFilesEveryElement(parent, siblings[1..], m1);
        forall k | k in ElementKeys(g, child.children)
          ensures Stored(result, k).Some?
        {
          ParseKeepsElements(parent, siblings[1..], m1, k);
        }
      } else {
        ParseFilesEveryElement(parent, siblings[1..], m);
      }
    }
  }

  class Config {
    var elements: seq<Entry<ConfigValue>>

    ghost predicate Valid()
      reads this
    {
      Sorted(elements)
    }

    constructor ()
      ensures Valid() && elements == []
    {
      elements := [];
    }

    /** addElement<T>: files the element under the name's hash and returns
        true (a new element is never NULL); map::insert keeps an element
        already filed under that hash. */
    method AddElement(name: string, value: ConfigValue) returns (ok: bool)
      requires Valid()
      modifies this
      ensures Valid() && ok
      ensures elements == Insert(old(elements), StringHashing.Hash(name), value)
      ensures old(Stored(elements, name)).Some? ==> elements == old(elements)
    {
      var hash := StringHashing.GetHash(name);
      InsertSorted(elements, hash, value);
      elements := Insert(elements, hash, value);
      return true;
    }

    /** getElement<T>: the element filed under the name's hash, cast to the
        requested type without looking at what it holds; when there is
        none, false and `element` unchanged. */
    method GetElement(name: string, requested: ElementType, element: ConfigValue) returns (found: bool, result: ConfigValue)
      requires Valid()
      ensures found <==> Stored(elements, name).Some?
      ensures found ==> result == Stored(elements, name).value
      ensures !found ==> result == element
    {
      var hash := StringHashing.GetHash(name);
      var at := Find(elements, hash);
      if at.Some? {
        return true, elements[at.value].value;
      }
      return false, element;
    }

    /** addElementOfType. */
    method AddElementOfType(name: string, typeName: string, valueText: string) returns (ok: bool)
      requires Valid()
      modifies this
      ensures Valid()
      ensures (ok, elements) == AddOfType(old(elements), name, typeName, valueText)
    {
      var hash := StringHashing.GetHash(name);
      if Find(elements, hash).Some? {
        return false;
      }
      if typeName == TypeString {
        ok := AddElement(name, StringElement(valueText));
      } else if typeName == TypeBoolean {
        var value := valueText == "True";
        ok := AddElement(name, BoolElement(value));
      } else if typeName == TypeUInt {
        var scanned := ScanInt(valueText);
        var value := if scanned.Scanned? then scanned.value % UIntRange else 0;
        if ScanCount(scanned) != 0 {
          ok := AddElement(name, UIntElement(value));
        } else {
          ok := false;
        }
      } else {
        ok := false;
      }
    }

    /** parseValue: needs the element's Name attribute, which it appends
        to the key before checking it. */
    method ParseValue(groupName: string, value: XmlElement) returns (ok: bool)
      requires Valid() && NameLabel in value.attributes
      modifies this
      ensures Valid()
      ensures Some((ok, elements)) == ParseValueStep(groupName, value, old(elements))
    {
      var keyName := KeyName(groupName, value.attributes[NameLabel]);
      if TypeLabel in value.attributes && ValueLabel in value.attributes {
        ok := AddElementOfType(keyName, value.attributes[TypeLabel], value.attributes[ValueLabel]);
        return;
      }
      return false;
    }

    /** parseGroups: walks `groups` (an element and its following
        siblings), recursing into named groups. */
    method ParseGroups(parentName: string, groups: seq<XmlElement>) returns (ok: bool)
      requires Valid() && ParseElements(parentName, groups, elements).Some?
      modifies this
      ensures Valid()
      ensures Some((ok, elements)) == ParseElements(parentName, groups, old(elements))
      decreases groups
    {
      var i := 0;
      while i < |groups|
        invariant Valid() && i <= |groups|
        invariant ParseElements(parentName, groups, old(elements)) == ParseElements(parentName, groups[i..], elements)
      {
        var child := groups[i];
        assert groups[i..][1..] == groups[i + 1..];
        if child.tag == ElementLabel {
          var parsed := ParseValue(parentName, child);
          if !parsed {
            return false;
          }
        } else if child.tag == GroupLabel {
          if NameLabel in child.attributes {
            var appended := GroupName(parentName, child.attributes[NameLabel]);
            var parsed := ParseGroups(appended, child.children);
            if !parsed {
              return false;
            }
          }
        }
        i := i + 1;
      }
      assert groups[i..] == [];
      return true;
    }
  }
}
