/**
 Symbol mangling: a name becomes its number of components followed by every component with its
 length, and such strings, alone or put together, can be taken apart again in only one way.
 */
module Mangling {

  type Name = seq<string>

  datatype Version = Version(major: nat, minor: nat, build: nat)

  // ----- Numbers -----

  function DigitChar(d: nat): char
    requires d < 10
  {
    ['0', '1', '2', '3', '4', '5', '6', '7', '8', '9'][d]
  }

  predicate IsDigit(c: char) {
    '0' <= c <= '9'
  }

  function DigitValue(c: char): nat
    requires IsDigit(c)
  {
    (c as int) - ('0' as int)
  }

  /** Ordinary decimal printing. */
  function Decimal(n: nat): string {
    if n < 10 then [DigitChar(n)] else Decimal(n / 10) + [DigitChar(n % 10)]
  }

  predicate StartsWithDigit(s: string) {
    s != "" && IsDigit(s[0])
  }

  /** Small numbers are looked up; the rest are printed. */
  method UintToString(value: nat) returns (s: string)
    ensures s == Decimal(value)
  {
    if value < 20 {
      SmallDecimals();
      match value {
        case 0 => return "0";
        case 1 => return "1";
        case 2 => return "2";
        case 3 => return "3";
        case 4 => return "4";
        case 5 => return "5";
        case 6 => return "6";
        case 7 => return "7";
        case 8 => return "8";
        case 9 => return "9";
        case 10 => return "10";
        case 11 => return "11";
        case 12 => return "12";
        case 13 => return "13";
        case 14 => return "14";
        case 15 => return "15";
        case 16 => return "16";
        case 17 => return "17";
        case 18 => return "18";
        case _ => return "19";
      }
    } else {
      return Decimal(value);
    }
  }

  lemma SmallDecimals()
    ensures Decimal(10) == "10" && Decimal(11) == "11" && Decimal(12) == "12" && Decimal(13) == "13"
    ensures Decimal(14) == "14" && Decimal(15) == "15" && Decimal(16) == "16" && Decimal(17) == "17"
    ensures Decimal(18) == "18" && Decimal(19) == "19"
  {}

  // ----- Mangling -----

  function MangleComponents(name: Name): string {
    if name == [] then ""
    else "N" + Decimal(|name[0]|) + name[0] + MangleComponents(name[1..])
  }

  function MangleName(prefix: string, name: Name): string {
    prefix + Decimal(|name|) + MangleComponents(name)
  }

  function MangleMethodName(typeName: Name, methodName: string): string {
    "M" + MangleName("T", typeName) + MangleName("F", [methodName])
  }

  function VersionString(version: Version): string {
    "V" + Decimal(version.major) + "_" + Decimal(version.minor) + "_" + Decimal(version.build) + "_"
  }

  function MangleModuleScopeFields(name: Name, version: Version): string {
    if name == [] then "" else MangleName("P", name) + VersionString(version)
  }

  // ----- Reading the strings back -----

  datatype Parsed<T> = Failure | Parsed(value: T, rest: string)

  function ParseDigits(value: nat, s: string): (nat, string)
    decreases |s|
  {
    if StartsWithDigit(s) then ParseDigits(10 * value + DigitValue(s[0]), s[1..]) else (value, s)
  }

  function ParseNumber(s: string): Parsed<nat> {
    if StartsWithDigit(s) then
      var (value, rest) := ParseDigits(0, s);
      Parsed(value, rest)
    else Failure
  }

  /** A string of a length given in decimal. */
  function ParseSized(s: string): Parsed<string> {
    match ParseNumber(s)
    case Failure => Failure
    case Parsed(length, rest) => if length <= |rest| then Parsed(rest[..length], rest[length..]) else Failure
  }

  function ParseComponents(s: string, count: nat): Parsed<Name>
    decreases count
  {
    if count == 0 then Parsed([], s)
    else if s == "" || s[0] != 'N' then Failure
    else
      match ParseSized(s[1..])
      case Failure => Failure
      case Parsed(first, rest) =>
        match ParseComponents(rest, count - 1)
        case Failure => Failure
        case Parsed(others, end) => Parsed([first] + others, end)
  }

  function ParseName(prefix: string, s: string): Parsed<Name> {
    if prefix <= s then
      match ParseNumber(s[|prefix|..])
      case Failure => Failure
      case Parsed(count, rest) => ParseComponents(rest, count)
    else Failure
  }

  datatype Method = Method(typeName: Name, methodName: string)

  function ParseMethodName(s: string): Parsed<Method> {
    if s == "" || s[0] != 'M' then Failure
    else
      match ParseName("T", s[1..])
      case Failure => Failure
      case Parsed(typeName, rest) =>
        match ParseName("F", rest)
        case Failure => Failure
        case Parsed(name, end) => if |name| == 1 then Parsed(Method(typeName, name[0]), end) else Failure
  }

  /** A number followed by an underscore. */
  function ParseField(s: string): Parsed<nat> {
    match ParseNumber(s)
    case Failure => Failure
    case Parsed(value, rest) => if rest != "" && rest[0] == '_' then Parsed(value, rest[1..]) else Failure
  }

  function ParseVersion(s: string): Parsed<Version> {
    if s == "" || s[0] != 'V' then Failure
    else
      match ParseField(s[1..])
      case Failure => Failure
      case Parsed(major, s1) =>
        match ParseField(s1)
        case Failure => Failure
        case Parsed(minor, s2) =>
          match ParseField(s2)
          case Failure => Failure
          case Parsed(build, s3) => Parsed(Version(major, minor, build), s3)
  }

  datatype ModuleScope = ModuleScope(name: Name, version: Version)

  function ParseModuleScope(s: string): Parsed<ModuleScope> {
    match ParseName("P", s)
    case Failure => Failure
    case Parsed(name, rest) =>
      match ParseVersion(rest)
      case Failure => Failure
      case Parsed(version, end) => Parsed(ModuleScope(name, version), end)
  }

  // ----- Round trips -----

  /** Identifiers do not start with a digit. */
  ghost predicate Decodable(name: Name) {
    forall i :: 0 <= i < |name| ==> !StartsWithDigit(name[i])
  }

  lemma {:induction false} DigitsStep(value: nat, d: nat, rest: string)
    requires d < 10
    ensures ParseDigits(value, [DigitChar(d)] + rest) == ParseDigits(10 * value + d, rest)
  {
    var s := [DigitChar(d)] + rest;
    assert s[0] == DigitChar(d) && s[1..] == rest;
  }

  lemma {:induction false} DigitsFold(n: nat, rest: string)
    ensures ParseDigits(0, Decimal(n) + rest) == ParseDigits(n, rest)
    decreases n
  {
    hide ParseDigits;
    if n < 10 {
      DigitsStep(0, n, rest);
    } else {
      DigitsFold(n / 10, [DigitChar(n % 10)] + rest);
      assert Decimal(n) + rest == Decimal(n / 10) + ([DigitChar(n % 10)] + rest);
      DigitsStep(n / 10, n % 10, rest);
    }
  }

  /** A printed number is read back, up to what follows it. */
  lemma DecimalRestored(n: nat, rest: string)
    ensures ParseNumber(Decimal(n) + rest) == Parsed(n, rest) <==> !StartsWithDigit(rest)
  {
    DigitsFold(n, rest);
    DecimalStarts(n, rest);
    DigitsAreTaken(n, rest);
  }

  lemma {:induction false} DecimalStarts(n: nat, rest: string)
    ensures StartsWithDigit(Decimal(n) + rest)
  {
    if n < 10 {
      assert (Decimal(n) + rest)[0] == DigitChar(n);
    } else {
      DecimalStarts(n / 10, [DigitChar(n % 10)] + rest);
      assert Decimal(n) + rest == Decimal(n / 10) + ([DigitChar(n % 10)] + rest);
    }
  }

  lemma {:induction false} DigitsAreTaken(value: nat, s: string)
    ensures var rest := ParseDigits(value, s).1;
      |rest| <= |s| && rest == s[|s| - |rest|..] && (StartsWithDigit(s) ==> |rest| < |s|)
    decreases |s|
  {
    if StartsWithDigit(s) {
      DigitsAreTaken(10 * value + DigitValue(s[0]), s[1..]);
    }
  }

  /** A sized string is read back exactly if it, or what follows the empty string, does not start with a digit. */
  lemma SizedRestored(s: string, rest: string)
    ensures ParseSized(Decimal(|s|) + s + rest) == Parsed(s, rest) <==> !StartsWithDigit(s + rest)
  {
    hide Decimal, ParseDigits;
    assert Decimal(|s|) + s + rest == Decimal(|s|) + (s + rest);
    if StartsWithDigit(s + rest) {
      SizedShorter(s, rest);
    } else {
      DecimalRestored(|s|, s + rest);
    }
  }

  /** Digits of the string itself are taken for digits of its length, and too little is left. */
  lemma SizedShorter(s: string, rest: string)
    requires StartsWithDigit(s + rest)
    ensures var r := ParseSized(Decimal(|s|) + s + rest);
      r.Parsed? ==> |r.value| + |r.rest| < |s| + |rest|
  {
    hide Decimal;
    assert Decimal(|s|) + s + rest == Decimal(|s|) + (s + rest);
    DigitsFold(|s|, s + rest);
    DigitsAreTaken(|s|, s + rest);
  }

  // ----- Readings are never shorter than what would be written -----

  lemma DecimalGrows(n: nat, d: nat)
    requires d < 10
    ensures |Decimal(10 * n + d)| <= |Decimal(n)| + 1
  {
    assert (10 * n + d) / 10 == n;
  }

  lemma {:induction false} DigitsLength(value: nat, s: string)
    ensures var (n, rest) := ParseDigits(value, s);
      |Decimal(n)| + |rest| <= |Decimal(value)| + |s|
    decreases |s|
  {
    hide Decimal;
    if StartsWithDigit(s) {
      DecimalGrows(value, DigitValue(s[0]));
      DigitsLength(10 * value + DigitValue(s[0]), s[1..]);
    }
  }

  lemma NumberLength(s: string)
    ensures var r := ParseNumber(s);
      r.Parsed? ==> |Decimal(r.value)| + |r.rest| <= |s| && r.rest == s[|s| - |r.rest|..]
  {
    if StartsWithDigit(s) {
      DigitsLength(DigitValue(s[0]), s[1..]);
      DigitsAreTaken(0, s);
    }
  }

  lemma SizedLength(s: string)
    ensures var r := ParseSized(s);
      r.Parsed? ==> |Decimal(|r.value|)| + |r.value| + |r.rest| <= |s| && r.rest == s[|s| - |r.rest|..]
  {
    hide Decimal, ParseNumber;
    NumberLength(s);
    var number := ParseNumber(s);
    if number.Parsed? && number.value <= |number.rest| {
      assert number.rest[number.value..] == s[|s| - |number.rest| + number.value..];
    }
  }

  lemma {:induction false} ComponentsLength(s: string, count: nat)
    ensures var r := ParseComponents(s, count);
      r.Parsed? ==>
        |r.value| == count && |MangleComponents(r.value)| + |r.rest| <= |s| && r.rest == s[|s| - |r.rest|..]
    decreases count
  {
    hide Decimal, ParseSized;
    if count > 0 && s != "" && s[0] == 'N' {
      SizedLength(s[1..]);
      var sized := ParseSized(s[1..]);
      if sized.Parsed? {
        ComponentsLength(sized.rest, count - 1);
        var others := ParseComponents(sized.rest, count - 1);
        if others.Parsed? {
          assert ([sized.value] + others.value)[1..] == others.value;
          assert sized.rest[|sized.rest| - |others.rest|..] == s[|s| - |others.rest|..];
        }
      }
    }
  }

  lemma ComponentsNoDigit(name: Name, rest: string)
    requires !StartsWithDigit(rest)
    ensures !StartsWithDigit(MangleComponents(name) + rest)
  {
    hide Decimal;
    if name != [] {
      assert (MangleComponents(name) + rest)[0] == 'N';
    } else {
      assert MangleComponents(name) + rest == rest;
    }
  }

  lemma NoDigitConcat(a: string, b: string)
    requires !StartsWithDigit(a) && !StartsWithDigit(b)
    ensures !StartsWithDigit(a + b)
  {
    if a == "" {
      assert a + b == b;
    } else {
      assert (a + b)[0] == a[0];
    }
  }

  /** The string of a non-empty list, taken apart once. */
  lemma ComponentsSplit(name: Name, rest: string)
    requires name != []
    ensures MangleComponents(name) + rest
      == "N" + (Decimal(|name[0]|) + name[0] + (MangleComponents(name[1..]) + rest))
  {
    hide Decimal;
  }

  lemma {:induction false} ComponentsRestored(name: Name, rest: string)
    requires !StartsWithDigit(rest)
    ensures ParseComponents(MangleComponents(name) + rest, |name|) == Parsed(name, rest) <==> Decodable(name)
  {
    hide Decimal, ParseSized, MangleComponents, ParseComponents;
    if name == [] {
      NothingRestored(rest);
    } else {
      var first, tail := name[0], MangleComponents(name[1..]) + rest;
      var s := Decimal(|first|) + first + tail;
      ComponentsSplit(name, rest);
      ComponentsNoDigit(name[1..], rest);
      SizedRestored(first, tail);
      ComponentsRestored(name[1..], rest);
      assert Decodable(name) <==> !StartsWithDigit(first) && Decodable(name[1..]);
      if StartsWithDigit(first) {
        assert (first + tail)[0] == first[0];
        SizedShorter(first, tail);
        ComponentsLost(s, name, rest);
      } else {
        NoDigitConcat(first, tail);
        ParseFirst(s, name, tail, rest);
      }
    }
  }

  lemma ParseFirst(s: string, name: Name, tail: string, rest: string)
    requires name != [] && ParseSized(s) == Parsed(name[0], tail)
    ensures ParseComponents("N" + s, |name|) == Parsed(name, rest) <==> ParseComponents(tail, |name| - 1) == Parsed(name[1..], rest)
  {
    hide ParseSized;
    assert ("N" + s)[1..] == s;
    var others := ParseComponents(tail, |name| - 1);
    if others.Parsed? {
      assert ([name[0]] + others.value)[1..] == others.value;
    }
    assert [name[0]] + name[1..] == name;
  }

  /** When too little is left after the first component, the rest cannot be read back. */
  lemma ComponentsLost(s: string, name: Name, rest: string)
    requires name != []
    requires var r := ParseSized(s);
      r.Parsed? ==> |r.value| + |r.rest| < |name[0]| + |MangleComponents(name[1..])| + |rest|
    ensures ParseComponents("N" + s, |name|) != Parsed(name, rest)
  {
    hide ParseSized, MangleComponents;
    assert ("N" + s)[1..] == s;
    var r := ParseSized(s);
    if r.Parsed? && r.value == name[0] {
      ComponentsLength(r.rest, |name| - 1);
      var others := ParseComponents(r.rest, |name| - 1);
      if others.Parsed? {
        assert ([r.value] + others.value)[1..] == others.value;
      }
    }
  }

  lemma NothingRestored(rest: string)
    ensures ParseComponents(MangleComponents([]) + rest, 0) == Parsed([], rest)
  {
    assert MangleComponents([]) + rest == rest;
  }

  /** A mangled name is read back, whatever follows that is not a digit, exactly if no component starts with a digit. */
  lemma NameRestored(prefix: string, name: Name, rest: string)
    requires !StartsWithDigit(rest)
    ensures ParseName(prefix, MangleName(prefix, name) + rest) == Parsed(name, rest) <==> Decodable(name)
  {
    hide Decimal, ParseNumber, ParseComponents, MangleComponents;
    var s := MangleName(prefix, name) + rest;
    var tail := MangleComponents(name) + rest;
    assert s == prefix + (Decimal(|name|) + tail);
    assert s[|prefix|..] == Decimal(|name|) + tail;
    ComponentsNoDigit(name, rest);
    DecimalRestored(|name|, tail);
    ComponentsRestored(name, rest);
  }

  lemma NameLength(prefix: string, s: string)
    ensures var r := ParseName(prefix, s);
      r.Parsed? ==> |MangleName(prefix, r.value)| + |r.rest| <= |s| && r.rest == s[|s| - |r.rest|..]
  {
    hide Decimal, ParseNumber, ParseComponents, MangleComponents;
    if prefix <= s {
      NumberLength(s[|prefix|..]);
      var number := ParseNumber(s[|prefix|..]);
      if number.Parsed? {
        ComponentsLength(number.rest, number.value);
      }
    }
  }

  lemma MethodParts(s: string, typeName: Name, methodName: string, rest: string)
    ensures ParseMethodName("M" + s) == Parsed(Method(typeName, methodName), rest) <==>
      var first := ParseName("T", s);
      first.Parsed? && first.value == typeName && ParseName("F", first.rest) == Parsed([methodName], rest)
  {
    hide ParseName;
    assert ("M" + s)[1..] == s;
    var first := ParseName("T", s);
    if first.Parsed? {
      var second := ParseName("F", first.rest);
      if second.Parsed? && |second.value| == 1 {
        assert second.value == [second.value[0]];
      }
    }
  }

  /** What is left after a name leaves no room for other readings of what follows it. */
  lemma RestIsLast(typeName: Name, name: Name, rest: string)
    ensures var last := MangleName("F", name) + rest;
      var first := ParseName("T", MangleName("T", typeName) + last);
      first.Parsed? && first.value == typeName && ParseName("F", first.rest) == Parsed(name, rest) ==> first.rest == last
  {
    hide MangleName, ParseName;
    var last := MangleName("F", name) + rest;
    var s := MangleName("T", typeName) + last;
    NameLength("T", s);
    var first := ParseName("T", s);
    if first.Parsed? && first.value == typeName && ParseName("F", first.rest) == Parsed(name, rest) {
      NameLength("F", first.rest);
      assert s[|s| - |last|..] == last;
    }
  }

  lemma OneDecodable(s: string)
    ensures Decodable([s]) <==> !StartsWithDigit(s)
  {
    assert [s][0] == s;
  }

  /** The same for methods: a type name followed by a one-component name. */
  lemma MethodRestored(typeName: Name, methodName: string, rest: string)
    requires !StartsWithDigit(rest)
    ensures ParseMethodName(MangleMethodName(typeName, methodName) + rest) == Parsed(Method(typeName, methodName), rest)
      <==> Decodable(typeName) && !StartsWithDigit(methodName)
  {
    hide MangleName, ParseName, ParseMethodName, Decodable;
    var last := MangleName("F", [methodName]) + rest;
    var s := MangleName("T", typeName) + last;
    assert MangleMethodName(typeName, methodName) + rest == "M" + s;
    StartsWithPrefix("F", [methodName], rest);
    NameRestored("T", typeName, last);
    NameRestored("F", [methodName], rest);
    OneDecodable(methodName);
    RestIsLast(typeName, [methodName], rest);
    MethodParts(s, typeName, methodName, rest);
  }

  lemma StartsWithPrefix(prefix: string, name: Name, rest: string)
    requires prefix != ""
    ensures (MangleName(prefix, name) + rest) != "" && (MangleName(prefix, name) + rest)[0] == prefix[0]
  {}

  lemma FieldRestored(n: nat, rest: string)
    ensures ParseField(Decimal(n) + "_" + rest) == Parsed(n, rest)
  {
    hide Decimal, ParseDigits;
    assert Decimal(n) + "_" + rest == Decimal(n) + ("_" + rest);
    DecimalRestored(n, "_" + rest);
    assert ("_" + rest)[1..] == rest;
  }

  lemma VersionRestored(version: Version, rest: string)
    ensures ParseVersion(VersionString(version) + rest) == Parsed(version, rest)
  {
    hide Decimal, ParseField;
    var s3 := rest;
    var s2 := Decimal(version.build) + "_" + s3;
    var s1 := Decimal(version.minor) + "_" + s2;
    var s0 := Decimal(version.major) + "_" + s1;
    assert VersionString(version) + rest == "V" + s0;
    assert ("V" + s0)[1..] == s0;
    FieldRestored(version.major, s1);
    FieldRestored(version.minor, s2);
    FieldRestored(version.build, s3);
  }

  /** A named module scope with its version can be taken off the front of a symbol. */
  lemma ModuleScopeRestored(name: Name, version: Version, rest: string)
    requires name != [] && Decodable(name)
    ensures ParseModuleScope(MangleModuleScopeFields(name, version) + rest) == Parsed(ModuleScope(name, version), rest)
  {
    hide MangleName, ParseName, VersionString, ParseVersion;
    var tail := VersionString(version) + rest;
    assert MangleModuleScopeFields(name, version) + rest == MangleName("P", name) + tail;
    assert !StartsWithDigit(tail) by { VersionStarts(version, rest); }
    NameRestored("P", name, tail);
    VersionRestored(version, rest);
  }

  lemma VersionStarts(version: Version, rest: string)
    ensures (VersionString(version) + rest) != "" && (VersionString(version) + rest)[0] == 'V'
  {
    hide Decimal;
  }

  /** Two methods of named modules have the same symbol only if they are the same. */
  lemma MethodSymbolsDiffer(scope: ModuleScope, method1: Method, scope': ModuleScope, method2: Method)
    requires scope.name != [] && scope'.name != [] && Decodable(scope.name) && Decodable(scope'.name)
    requires Decodable(method1.typeName) && Decodable(method2.typeName)
    requires !StartsWithDigit(method1.methodName) && !StartsWithDigit(method2.methodName)
    requires MangleModuleScopeFields(scope.name, scope.version) + MangleMethodName(method1.typeName, method1.methodName)
      == MangleModuleScopeFields(scope'.name, scope'.version) + MangleMethodName(method2.typeName, method2.methodName)
    ensures scope == scope' && method1 == method2
  {
    hide MangleModuleScopeFields, MangleMethodName, ParseModuleScope, ParseMethodName, Decodable;
    ModuleScopeRestored(scope.name, scope.version, MangleMethodName(method1.typeName, method1.methodName));
    ModuleScopeRestored(scope'.name, scope'.version, MangleMethodName(method2.typeName, method2.methodName));
    MethodRestored(method1.typeName, method1.methodName, "");
    MethodRestored(method2.typeName, method2.methodName, "");
    assert MangleMethodName(method1.typeName, method1.methodName) + "" == MangleMethodName(method1.typeName, method1.methodName);
    assert MangleMethodName(method2.typeName, method2.methodName) + "" == MangleMethodName(method2.typeName, method2.methodName);
  }

  /** A component that starts with a digit can run into its own length: two names, one symbol. */
  lemma DigitsCollide()
    ensures var a, b := ["1", "aaaaaaaaN2yz"], ["N12aaaaaaaa", "yz"];
      a != b && MangleName("F", a) == MangleName("F", b)
  {
    var a, b := ["1", "aaaaaaaaN2yz"], ["N12aaaaaaaa", "yz"];
    SmallDecimals();
    assert a[1..] == ["aaaaaaaaN2yz"] && a[1..][1..] == [];
    assert b[1..] == ["yz"] && b[1..][1..] == [];
    assert MangleComponents(a[1..]) == "N12aaaaaaaaN2yz";
    assert MangleComponents(b[1..]) == "N2yz";
    assert MangleComponents(a) == "N11N12aaaaaaaaN2yz" == MangleComponents(b);
  }

  // ----- The cache -----

  lemma {:induction false} ComponentsAppend(name: Name, last: string)
    ensures MangleComponents(name + [last]) == MangleComponents(name) + "N" + Decimal(|last|) + last
  {
    hide Decimal;
    if name == [] {
      assert name + [last] == [last] && [last][1..] == [];
    } else {
      assert (name + [last])[1..] == name[1..] + [last];
      ComponentsAppend(name[1..], last);
    }
  }

  class Mangler {
    var mangledNameMap: map<(string, Name), string>

    ghost predicate Valid()
      reads this
    {
      forall key :: key in mangledNameMap ==> mangledNameMap[key] == MangleName(key.0, key.1)
    }

    constructor ()
      ensures Valid()
    {
      mangledNameMap := map[];
    }

    method Mangle(prefix: string, name: Name) returns (s: string)
      requires Valid() && name != []
      modifies this
      ensures Valid() && s == MangleName(prefix, name)
      ensures mangledNameMap == old(mangledNameMap)[(prefix, name) := s]
    {
      hide MangleName, Decimal;
      if (prefix, name) in mangledNameMap {
        s := mangledNameMap[(prefix, name)];
        assert mangledNameMap == mangledNameMap[(prefix, name) := s];
        return;
      }
      s := prefix;
      var size := UintToString(|name|);
      s := s + size;
      for i := 0 to |name|
        invariant mangledNameMap == old(mangledNameMap)
        invariant s == prefix + Decimal(|name|) + MangleComponents(name[..i])
      {
        var length := UintToString(|name[i]|);
        assert name[..i + 1] == name[..i] + [name[i]];
        ComponentsAppend(name[..i], name[i]);
        s := s + "N" + length + name[i];
      }
      assert name[..|name|] == name;
      MangledIs(prefix, name);
      mangledNameMap := mangledNameMap[(prefix, name) := s];
    }

    method MangleMethod(typeName: Name, methodName: string) returns (s: string)
      requires Valid() && typeName != []
      modifies this
      ensures Valid() && s == MangleMethodName(typeName, methodName)
    {
      hide MangleName;
      var t := Mangle("T", typeName);
      var f := Mangle("F", [methodName]);
      s := "M" + t + f;
    }

    method MangleModuleScope(name: Name, version: Version) returns (s: string)
      requires Valid()
      modifies this
      ensures Valid() && s == MangleModuleScopeFields(name, version)
    {
      hide MangleName, Decimal;
      if name == [] {
        return "";
      }
      var major := UintToString(version.major);
      var minor := UintToString(version.minor);
      var build := UintToString(version.build);
      var versionString := major + "_" + minor + "_" + build + "_";
      var mangled := Mangle("P", name);
      s := mangled + "V" + versionString;
      VersionSpelled(version);
    }
  }

  lemma MangledIs(prefix: string, name: Name)
    ensures MangleName(prefix, name) == prefix + Decimal(|name|) + MangleComponents(name)
  {}

  lemma VersionSpelled(version: Version)
    ensures VersionString(version)
      == "V" + (Decimal(version.major) + "_" + Decimal(version.minor) + "_" + Decimal(version.build) + "_")
  {
    hide Decimal;
  }
}
