/** Mangled member names: the printer of extc.ts and the parser of table.ts. */
module MangledNames {
  import opened Prelude

  // ----- Characters and numbers -----

  predicate IsDigit(c: char) {
    '0' <= c <= '9'
  }

  /** What may follow the length digits of a member encoding. */
  predicate IsNameStart(c: char) {
    'A' <= c <= 'Z' || 'a' <= c <= 'z' || c == '_' || c == '@'
  }

  predicate IsHex(c: char) {
    IsDigit(c) || 'A' <= c <= 'F' || 'a' <= c <= 'f'
  }

  predicate AllDigits(s: string) {
    forall i :: 0 <= i < |s| ==> IsDigit(s[i])
  }

  function Digit(n: nat): char
    requires n < 10
  {
    ('0' as int + n) as char
  }

  function DigitValue(c: char): nat {
    if IsDigit(c) then c as int - '0' as int else 0
  }

  /** The decimal numeral of a length. */
  function Decimal(n: nat): string {
    if n < 10 then [Digit(n)] else Decimal(n / 10) + [Digit(n % 10)]
  }

  /** The number that a string of digits denotes. */
  function Value(digits: string): nat {
    if digits == [] then 0
    else Value(digits[..|digits| - 1]) * 10 + DigitValue(digits[|digits| - 1])
  }

  /** How many digits the text starts with. */
  function DigitRun(s: string): (n: nat)
    ensures n <= |s|
  {
    if s == [] || !IsDigit(s[0]) then 0 else DigitRun(s[1..]) + 1
  }

  function IndexOf(s: string, c: char): (found: Option<nat>)
    ensures found.Some? ==> found.value < |s|
  {
    if s == [] then None
    else if s[0] == c then Some(0)
    else
      var rest := IndexOf(s[1..], c);
      if rest.None? then None else Some(rest.value + 1)
  }

  // ----- Printing -----

  function TokenText(token: string): string {
    Decimal(|token|) + token
  }

  function TokensText(tokens: seq<string>): string {
    if tokens == [] then "" else TokensText(tokens[..|tokens| - 1]) + TokenText(tokens[|tokens| - 1])
  }

  /** The scope ends with the class, which is appended when the caller left it out. */
  function FullPath(className: string, path: seq<string>): seq<string> {
    if path == [] || path[|path| - 1] == className then path else path + [className]
  }

  function ClassEncoding(className: string, path: seq<string>): string {
    if path == [] then TokenText(className)
    else
      var full := FullPath(className, path);
      "Q" + Decimal(|full|) + TokensText(full)
  }

  /** What follows the member marker. */
  function Encoding(className: string, params: string, path: seq<string>): string {
    ClassEncoding(className, path) + "F" + params
  }

  function MangleMember(className: string, memberName: string, params: string, path: seq<string>): string {
    memberName + "__" + Encoding(className, params, path)
  }

  function MangleCtor(className: string, params: string, path: seq<string>): string {
    "__ct__" + Encoding(className, params, path)
  }

  function MangleDtor(className: string, params: string, path: seq<string>): string {
    "__dt__" + Encoding(className, params, path)
  }

  // ----- Stripping -----

  /** dtk bucket prefixes: `@12@`, any number of them. */
  function StripBuckets(s: string): string
    decreases |s|
  {
    if s == [] || s[0] != '@' then s
    else
      var end := IndexOf(s[1..], '@');
      if end.None? then s else StripBuckets(s[1..][end.value + 1..])
  }

  function LastAt(s: string): (found: Option<nat>)
    ensures found.Some? ==> found.value < |s| && s[found.value] == '@' && '@' !in s[found.value + 1..]
    ensures found.None? ==> '@' !in s
  {
    if s == [] then None
    else if s[|s| - 1] == '@' then Some(|s| - 1)
    else
      var found := LastAt(s[..|s| - 1]);
      if found.Some? then assert s[found.value + 1..] == s[..|s| - 1][found.value + 1..] + [s[|s| - 1]]; found
      else None
  }

  predicate IsLocalSuffix(s: string) {
    s == "@instance" || (|s| >= 2 && s[0] == '@' && AllDigits(s[1..]))
  }

  /** dtk local suffixes: `@instance` or `@4`, any number of them. */
  function StripLocalSuffixes(s: string): string
    decreases |s|
  {
    var at := LastAt(s);
    if at.Some? && IsLocalSuffix(s[at.value..]) then StripLocalSuffixes(s[..at.value]) else s
  }

  /** The length of an address prefix: `func_`, `lbl_` or `data_` and eight hexadecimal digits. */
  function AddressPrefix(s: string): (n: nat)
    ensures n <= |s| && (n > 0 ==> n >= 12 && IsHex(s[n - 1]) && '@' !in s[..n])
  {
    if HasAddress(s, "func_") then 13
    else if HasAddress(s, "lbl_") then 12
    else if HasAddress(s, "data_") then 13
    else 0
  }

  predicate HasAddress(s: string, prefix: string) {
    && |prefix| + 8 <= |s| && s[..|prefix|] == prefix
    && forall i :: |prefix| <= i < |prefix| + 8 ==> IsHex(s[i])
  }

  function Cleaned(name: string): string {
    var s := StripLocalSuffixes(StripBuckets(name));
    s[AddressPrefix(s)..]
  }

  // ----- Parsing -----

  datatype Token = Token(name: string, rest: string)

  /** One length-prefixed token. A length that overruns the text is cut at the signature's `F`, unless
      it has three digits or more or there is no `F`. */
  function ReadToken(s: string): Option<Token> {
    var start := DigitRun(s);
    TokenAt(s, start, Value(s[..start]))
  }

  function TokenAt(s: string, start: nat, length: nat): Option<Token>
    requires start <= |s|
  {
    if length == 0 then None
    else if start + length <= |s| then Some(Token(s[start..start + length], s[start + length..]))
    else if length > 99 then None
    else
      var f := IndexOf(s[start..], 'F');
      if f.None? || f.value == 0 then None
      else Some(Token(s[start..start + f.value], s[start + f.value..]))
  }

  datatype Tokens = Tokens(names: seq<string>, rest: string)

  function ReadTokens(s: string, count: nat): Option<Tokens>
    decreases count
  {
    if count == 0 then Some(Tokens([], s))
    else
      var before := ReadTokens(s, count - 1);
      if before.None? then None else ReadOneMore(before.value)
  }

  function ReadOneMore(before: Tokens): Option<Tokens> {
    var last := ReadToken(before.rest);
    if last.None? then None else Some(Tokens(before.names + [last.value.name], last.value.rest))
  }

  datatype Core = Core(className: Option<string>, path: seq<string>, params: Option<string>)

  function ParamsOf(rest: string): Option<string> {
    if rest != [] && rest[0] == 'F' then Some(rest[1..]) else None
  }

  /** One digit that counts the tokens, and the tokens. Nothing at all counts as no tokens. */
  function Qualified(body: string): Option<Core> {
    if body == [] then Some(Core(None, [], None))
    else if !('1' <= body[0] <= '9') then None
    else
      var r := ReadTokens(body[1..], DigitValue(body[0]));
      if r.None? then None
      else
        var names := r.value.names;
        Some(Core(if names == [] then None else Some(names[|names| - 1]), names, ParamsOf(r.value.rest)))
  }

  function Unqualified(body: string): Option<Core> {
    var r := ReadToken(body);
    if r.None? then None else Some(Core(Some(r.value.name), [], ParamsOf(r.value.rest)))
  }

  function ParseCore(body: string): Option<Core> {
    if body != [] && body[0] == 'Q' then Qualified(body[1..]) else Unqualified(body)
  }

  // ----- Finding the encoding -----

  predicate OccursAt(s: string, pattern: string, i: nat) {
    i + |pattern| <= |s| && s[i..i + |pattern|] == pattern
  }

  ghost predicate Contains(s: string, pattern: string) {
    exists i: nat :: OccursAt(s, pattern, i)
  }

  function LastBelow(s: string, pattern: string, n: nat): (found: Option<nat>)
    ensures found.Some? ==> found.value < n && OccursAt(s, pattern, found.value)
    ensures forall i: nat :: (if found.Some? then found.value else -1) < i < n ==> !OccursAt(s, pattern, i)
  {
    if n == 0 then None
    else if OccursAt(s, pattern, n - 1) then Some(n - 1)
    else LastBelow(s, pattern, n - 1)
  }

  function LastIndexOf(s: string, pattern: string): Option<nat> {
    LastBelow(s, pattern, |s| + 1)
  }

  /** Digits and then the start of a name. */
  predicate DigitsThenName(s: string) {
    |s| >= 2 && IsDigit(s[0]) && (IsNameStart(s[1]) || DigitsThenName(s[1..]))
  }

  predicate LooksEncoded(s: string) {
    (|s| >= 2 && s[0] == 'Q' && IsDigit(s[1])) || DigitsThenName(s)
  }

  /** `__` with a member encoding behind it. */
  predicate MarkerAt(s: string, i: nat) {
    i + 2 <= |s| && s[i] == '_' && s[i + 1] == '_' && LooksEncoded(s[i + 2..])
  }

  ghost predicate HasMarker(s: string) {
    exists i: nat :: MarkerAt(s, i)
  }

  function LastMarkerBelow(s: string, n: nat): (found: Option<nat>)
    ensures found.Some? ==> found.value < n && MarkerAt(s, found.value)
    ensures forall i: nat :: (if found.Some? then found.value else -1) < i < n ==> !MarkerAt(s, i)
  {
    if n == 0 then None
    else if MarkerAt(s, n - 1) then Some(n - 1)
    else LastMarkerBelow(s, n - 1)
  }

  function LastMarker(s: string): Option<nat> {
    LastMarkerBelow(s, |s|)
  }

  datatype MangledName = MangledName(
    className: Option<string>, path: seq<string>, isConstructor: bool, isDestructor: bool, isMember: bool,
    params: Option<string>)

  const FREE := MangledName(None, [], false, false, false, None)

  function WithCore(out: MangledName, core: Option<Core>): MangledName {
    if core.None? then out
    else out.(className := core.value.className, path := core.value.path, params := core.value.params)
  }

  /** Where the encoding of a name starts, and what kind of name it is. */
  datatype Place = Nowhere | Special(at: nat, ctor: bool) | Member(at: nat)

  predicate Fits(s: string, at: Option<nat>, length: nat) {
    at.Some? ==> at.value + length <= |s|
  }

  /** The last `__ct__` or `__dt__` decides, and without them the last member marker. */
  function PlaceAt(s: string, ctor: Option<nat>, dtor: Option<nat>, marker: Option<nat>): (place: Place)
    requires Fits(s, ctor, 6) && Fits(s, dtor, 6) && Fits(s, marker, 2)
    ensures !place.Nowhere? ==> place.at <= |s|
  {
    if ctor.Some? && (dtor.None? || ctor.value >= dtor.value) then Special(ctor.value + 6, true)
    else if dtor.Some? then Special(dtor.value + 6, false)
    else if marker.Some? then Member(marker.value + 2)
    else Nowhere
  }

  function PlaceOf(s: string): (place: Place)
    ensures !place.Nowhere? ==> place.at <= |s|
  {
    PlaceAt(s, LastIndexOf(s, "__ct__"), LastIndexOf(s, "__dt__"), LastMarker(s))
  }

  /** What a name says, from what its encoding says. */
  function Said(place: Place, core: Option<Core>): MangledName {
    match place
    case Nowhere => FREE
    case Special(_, ctor) => WithCore(FREE.(isMember := true, isConstructor := ctor, isDestructor := !ctor), core)
    case Member(_) => if core.None? then FREE else WithCore(FREE.(isMember := true), core)
  }

  function CoreAt(s: string, place: Place): Option<Core>
    requires !place.Nowhere? ==> place.at <= |s|
  {
    if place.Nowhere? then None else ParseCore(s[place.at..])
  }

  function ParsedText(s: string): MangledName {
    Said(PlaceOf(s), CoreAt(s, PlaceOf(s)))
  }

  function Parsed(name: string): MangledName {
    ParsedText(Cleaned(name))
  }

  // ----- The loops of the parser -----

  lemma MarkersDoNotOverlap(s: string, i: nat)
    requires MarkerAt(s, i)
    ensures !MarkerAt(s, i + 1)
  {
  }

  /** The successive matches of the marker pattern; each search goes on behind the match before. */
  method FindLastMarker(s: string) returns (last: Option<nat>)
    ensures last == LastMarker(s)
  {
    var i := 0;
    last := None;
    while i < |s|
      invariant 0 <= i <= |s| + 1
      invariant last == LastMarkerBelow(s, i)
    {
      if MarkerAt(s, i) {
        MarkersDoNotOverlap(s, i);
        last := Some(i);
        i := i + 2;
      } else {
        i := i + 1;
      }
    }
    if i == |s| + 1 {
      assert !MarkerAt(s, |s|);
    }
  }

  lemma {:induction false} NoTokensBeyond(s: string, few: nat, many: nat)
    requires few <= many && ReadTokens(s, few).None?
    ensures ReadTokens(s, many).None?
    decreases many
  {
    if few < many {
      NoTokensBeyond(s, few, many - 1);
    }
  }

  method ParseQualified(body: string) returns (core: Option<Core>)
    ensures core == Qualified(body)
  {
    if body == [] {
      return Some(Core(None, [], None));
    }
    if body[0] < '1' || body[0] > '9' {
      return None;
    }
    var read := ReadList(body[1..], DigitValue(body[0]));
    if read.None? {
      return None;
    }
    var tokens := read.value.names;
    core := Some(Core(if tokens == [] then None else Some(tokens[|tokens| - 1]), tokens, ParamsOf(read.value.rest)));
  }

  lemma ReadTokensStep(s: string, count: nat)
    ensures ReadTokens(s, count + 1) ==
      if ReadTokens(s, count).None? then None else ReadOneMore(ReadTokens(s, count).value)
  {
  }

  method ReadList(s: string, count: nat) returns (read: Option<Tokens>)
    ensures read == ReadTokens(s, count)
  {
    read := Some(Tokens([], s));
    var t := 0;
    while t < count && read.Some?
      invariant 0 <= t <= count
      invariant read == ReadTokens(s, t)
    {
      ReadTokensStep(s, t);
      read := ReadOneMore(read.value);
      t := t + 1;
    }
    if read.None? {
      NoTokensBeyond(s, t, count);
    }
  }

  method ParseMangled(name: string) returns (out: MangledName)
    ensures out == Parsed(name)
  {
    out := ParseCleaned(Cleaned(name));
  }

  method ParseCleaned(cleaned: string) returns (out: MangledName)
    ensures out == ParsedText(cleaned)
  {
    var place := FindPlace(cleaned);
    var core := None;
    if !place.Nowhere? {
      core := ParseBody(cleaned[place.at..]);
    }
    out := Said(place, core);
  }

  method FindPlace(cleaned: string) returns (place: Place)
    ensures place == PlaceOf(cleaned)
  {
    var ctor, dtor := LastIndexOf(cleaned, "__ct__"), LastIndexOf(cleaned, "__dt__");
    if ctor.Some? || dtor.Some? {
      var isCtor := ctor.Some? && (dtor.None? || ctor.value >= dtor.value);
      place := Special((if isCtor then ctor.value else dtor.value) + 6, isCtor);
      return;
    }
    var last := FindLastMarker(cleaned);
    place := if last.None? then Nowhere else Member(last.value + 2);
  }

  method ParseBody(body: string) returns (core: Option<Core>)
    ensures core == ParseCore(body)
  {
    if body != [] && body[0] == 'Q' {
      core := ParseQualified(body[1..]);
    } else {
      core := Unqualified(body);
    }
  }

  // ----- Canonical names -----

  /** The text before the last member marker. */
  function MemberNameOf(name: string): string {
    var last := LastMarker(name);
    if last.None? then name else name[..last.value]
  }

  method FindMemberName(name: string) returns (member: string)
    ensures member == MemberNameOf(name)
  {
    var last := FindLastMarker(name);
    member := if last.None? then name else name[..last.value];
  }

  /** The canonical name of a retail member, or none when it is canonical already or left alone. */
  method CanonicalTargetFor(name: string, info: MangledName) returns (target: Option<string>)
    requires info.className.Some?
    ensures target == CanonicalTarget(name, info)
  {
    if '@' in name {
      return None;
    }
    if !info.isConstructor && !info.isDestructor && LastIndexOf(name, "Fv").None? {
      return None;
    }
    var className, params := info.className.value, if info.params.Some? then info.params.value else "v";
    var canonical;
    if info.isConstructor {
      canonical := MangleCtor(className, params, info.path);
    } else if info.isDestructor {
      canonical := MangleDtor(className, params, info.path);
    } else {
      var member := FindMemberName(name);
      canonical := MangleMember(className, member, params, info.path);
    }
    target := if canonical == name then None else Some(canonical);
  }

  /** The name that the parts of a parsed name print to. */
  function Canonical(name: string, info: MangledName): string
    requires info.className.Some?
  {
    var params := if info.params.Some? then info.params.value else "v";
    if info.isConstructor then MangleCtor(info.className.value, params, info.path)
    else if info.isDestructor then MangleDtor(info.className.value, params, info.path)
    else MangleMember(info.className.value, MemberNameOf(name), params, info.path)
  }

  function CanonicalTarget(name: string, info: MangledName): Option<string>
    requires info.className.Some?
  {
    if '@' in name || (!info.isConstructor && !info.isDestructor && LastIndexOf(name, "Fv").None?) then None
    else if Canonical(name, info) == name then None
    else Some(Canonical(name, info))
  }
}
