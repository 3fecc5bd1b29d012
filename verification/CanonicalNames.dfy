/** The canonical name of a parsed name: it says what the name said, and is canonical itself. */
module CanonicalNames {
  import opened Prelude
  import opened MangledNames
  import opened MangledRoundTrip

  // ----- Other digits for the same token create neither markers nor special prefixes -----

  lemma {:induction false} DigitsThen(digits: string, rest: string)
    requires AllDigits(digits) && digits != [] && rest != [] && !IsDigit(rest[0])
    ensures DigitsThenName(digits + rest) == IsNameStart(rest[0])
    decreases |digits|
  {
    assert (digits + rest)[1..] == digits[1..] + rest;
    if |digits| > 1 {
      DigitsThen(digits[1..], rest);
    }
  }

  lemma {:induction false} DigitsThenNameSwap(before: string, digits: string, others: string, rest: string)
    requires AllDigits(digits) && digits != [] && AllDigits(others) && others != []
    requires rest != [] && !IsDigit(rest[0])
    ensures DigitsThenName(before + digits + rest) == DigitsThenName(before + others + rest)
    decreases |before|
  {
    if before == [] {
      assert before + digits == digits && before + others == others;
      DigitsThen(digits, rest);
      DigitsThen(others, rest);
    } else {
      assert (before + digits + rest)[1..] == before[1..] + digits + rest;
      assert (before + others + rest)[1..] == before[1..] + others + rest;
      DigitsThenNameSwap(before[1..], digits, others, rest);
    }
  }

  lemma DigitsStartNoMarker(before: string, digits: string, rest: string, i: nat)
    requires AllDigits(digits) && digits != []
    requires i + 1 >= |before| && i < |before| + |digits|
    ensures !MarkerAt(before + digits + rest, i)
  {
    var t := before + digits + rest;
    if i + 1 == |before| {
      assert t[i + 1] == digits[0];
    } else {
      assert t[i] == digits[i - |before|];
    }
  }

  lemma MarkersInFront(before: string, digits: string, others: string, rest: string, i: nat)
    requires AllDigits(digits) && digits != [] && AllDigits(others) && others != []
    requires rest != [] && !IsDigit(rest[0]) && i + 2 <= |before|
    ensures MarkerAt(before + digits + rest, i) == MarkerAt(before + others + rest, i)
  {
    assert (before + digits + rest)[i + 2..] == before[i + 2..] + digits + rest;
    assert (before + others + rest)[i + 2..] == before[i + 2..] + others + rest;
    DigitsThenNameSwap(before[i + 2..], digits, others, rest);
  }

  ghost predicate NoMarkerFrom(s: string, from: nat) {
    forall i: nat :: i >= from ==> !MarkerAt(s, i)
  }

  lemma SwapKeepsMarkersOut(before: string, digits: string, others: string, rest: string, from: nat)
    requires AllDigits(digits) && digits != [] && AllDigits(others) && others != []
    requires rest != [] && !IsDigit(rest[0])
    requires from <= |before| && NoMarkerFrom(before + digits + rest, from)
    ensures NoMarkerFrom(before + others + rest, from)
  {
    var n, m := |before|, |others|;
    forall i: nat | i >= from
      ensures !MarkerAt(before + others + rest, i)
    {
      if i + 2 <= n {
        MarkersInFront(before, digits, others, rest, i);
      } else if i < n + m {
        DigitsStartNoMarker(before, others, rest, i);
      } else {
        MarkersBehind(before + others, rest, i);
        MarkersBehind(before + digits, rest, i - m + |digits|);
      }
    }
  }

  lemma OccursInFront(before: string, rest: string, pattern: string, i: nat)
    requires i + |pattern| <= |before|
    ensures OccursAt(before + rest, pattern, i) == OccursAt(before, pattern, i)
  {
    assert (before + rest)[i..i + |pattern|] == before[i..i + |pattern|];
  }

  lemma OccursAfter(before: string, rest: string, pattern: string, i: nat)
    requires i >= |before|
    ensures OccursAt(before + rest, pattern, i) == OccursAt(rest, pattern, i - |before|)
  {
    if i + |pattern| <= |before + rest| {
      assert (before + rest)[i..i + |pattern|] == rest[i - |before|..i - |before| + |pattern|];
    }
  }

  lemma PatternHasNoDigits(pattern: string, i: nat)
    requires pattern in {"__ct__", "__dt__"} && i < 6
    ensures |pattern| == 6 && !IsDigit(pattern[i])
  {
  }

  lemma DigitsAreInNoPattern(before: string, digits: string, rest: string, pattern: string, i: nat)
    requires AllDigits(digits) && digits != [] && pattern in {"__ct__", "__dt__"}
    requires i + 6 > |before| && i < |before| + |digits|
    ensures !OccursAt(before + digits + rest, pattern, i)
  {
    var t, q := before + digits + rest, if i < |before| then |before| else i;
    if i + 6 <= |t| {
      assert IsDigit(digits[q - |before|]) && t[i..i + 6][q - i] == digits[q - |before|];
      PatternHasNoDigits(pattern, q - i);
    }
  }

  lemma SwapKeepsPatternOut(before: string, digits: string, others: string, rest: string, pattern: string)
    requires AllDigits(others) && others != [] && pattern in {"__ct__", "__dt__"}
    requires !Contains(before + digits + rest, pattern)
    ensures !Contains(before + others + rest, pattern)
  {
    var s, t, n, m := before + digits + rest, before + others + rest, |before|, |others|;
    assert t == before + (others + rest) && s == before + (digits + rest);
    forall i: nat
      ensures !OccursAt(t, pattern, i)
    {
      if i + 6 <= n {
        OccursInFront(before, others + rest, pattern, i);
        OccursInFront(before, digits + rest, pattern, i);
      } else if i < n + m {
        DigitsAreInNoPattern(before, others, rest, pattern, i);
      } else {
        OccursAfter(before + others, rest, pattern, i);
        OccursAfter(before + digits, rest, pattern, i - m + |digits|);
      }
    }
  }

  /** The second text brings in neither markers nor special prefixes. */
  ghost predicate AsQuiet(s: string, t: string, from: nat, pattern: string) {
    (NoMarkerFrom(s, from) ==> NoMarkerFrom(t, from)) && (!Contains(s, pattern) ==> !Contains(t, pattern))
  }

  lemma SwapIsQuiet(before: string, digits: string, others: string, rest: string, from: nat, pattern: string)
    requires AllDigits(digits) && digits != [] && AllDigits(others) && others != []
    requires rest != [] && !IsDigit(rest[0])
    requires from <= |before| && pattern in {"__ct__", "__dt__"}
    ensures AsQuiet(before + digits + rest, before + others + rest, from, pattern)
  {
    if NoMarkerFrom(before + digits + rest, from) {
      SwapKeepsMarkersOut(before, digits, others, rest, from);
    }
    if !Contains(before + digits + rest, pattern) {
      SwapKeepsPatternOut(before, digits, others, rest, pattern);
    }
  }

  lemma CanonicalToken(before: string, s: string, from: nat, pattern: string)
    requires ReadToken(s).Some? && from <= |before| && pattern in {"__ct__", "__dt__"}
    ensures var Token(name, rest) := ReadToken(s).value;
      AsQuiet(before + s, before + TokenText(name) + rest, from, pattern)
  {
    ReadTokenParts(s);
    var Token(name, rest) := ReadToken(s).value;
    var digits := s[..DigitRun(s)];
    DecimalIsNumeral(|name|);
    SwapIsQuiet(before, digits, Decimal(|name|), name + rest, from, pattern);
    Regroup(before, digits, name, rest);
    Regroup(before, Decimal(|name|), name, rest);
  }

  lemma CanonicalOneMore(before: string, read: Tokens, from: nat, pattern: string)
    requires ReadOneMore(read).Some? && from <= |before| && pattern in {"__ct__", "__dt__"}
    ensures var more := ReadOneMore(read).value;
      AsQuiet(before + TokensText(read.names) + read.rest, before + TokensText(more.names) + more.rest, from, pattern)
  {
    var Token(name, rest) := ReadToken(read.rest).value;
    CanonicalToken(before + TokensText(read.names), read.rest, from, pattern);
    Regroup(before, TokensText(read.names), TokenText(name), rest);
    assert (read.names + [name])[..|read.names|] == read.names;
    assert TokensText(read.names + [name]) == TokensText(read.names) + TokenText(name);
  }

  /** The tokens that were read, with their canonical digits. */
  lemma {:induction false} CanonicalTokens(before: string, s: string, count: nat, from: nat, pattern: string)
    requires ReadTokens(s, count).Some? && from <= |before| && pattern in {"__ct__", "__dt__"}
    ensures var Tokens(names, rest) := ReadTokens(s, count).value;
      AsQuiet(before + s, before + TokensText(names) + rest, from, pattern)
    decreases count
  {
    if count == 0 {
      assert before + TokensText([]) + s == before + s;
    } else {
      CanonicalTokens(before, s, count - 1, from, pattern);
      CanonicalOneMore(before, ReadTokens(s, count - 1).value, from, pattern);
    }
  }

  lemma CountedText(before: string, c: char, tokens: string, rest: string)
    requires '1' <= c <= '9'
    ensures before + ("Q" + Decimal(DigitValue(c)) + tokens) + rest == before + "Q" + [c] + tokens + rest
  {
    CountDigit(DigitValue(c));
  }

  lemma CanonicalQualified(before: string, tail: string, from: nat, pattern: string) returns (rest: string)
    requires Qualified(tail).Some? && Qualified(tail).value.className.Some?
    requires from <= |before| && pattern in {"__ct__", "__dt__"}
    ensures var core := Qualified(tail).value;
      && 1 <= |core.path| <= 9 && core.className == Some(core.path[|core.path| - 1]) && core.params == ParamsOf(rest)
      && (forall i :: 0 <= i < |core.path| ==> IsToken(core.path[i]))
      && AsQuiet(before + ("Q" + tail), before + ("Q" + Decimal(|core.path|) + TokensText(core.path)) + rest, from,
                 pattern)
  {
    var s, count := tail[1..], DigitValue(tail[0]);
    var read := ReadTokens(s, count).value;
    rest := read.rest;
    ReadTokensSize(s, count);
    CountedText(before, tail[0], TokensText(read.names), rest);
    CanonicalTokens(before + "Q" + [tail[0]], s, count, from, pattern);
    SplitCount(before, tail);
  }

  lemma SplitCount(before: string, tail: string)
    requires tail != []
    ensures before + ("Q" + tail) == before + "Q" + [tail[0]] + tail[1..]
  {
  }

  /** A core that was read, with canonical digits, and what it left. */
  lemma CanonicalCore(before: string, body: string, from: nat, pattern: string) returns (rest: string)
    requires ParseCore(body).Some? && ParseCore(body).value.className.Some?
    requires from <= |before| && pattern in {"__ct__", "__dt__"}
    ensures var core := ParseCore(body).value;
      && core.params == ParamsOf(rest)
      && IsScope(core.className.value, core.path) && |core.path| <= 9
      && FullPath(core.className.value, core.path) == core.path
      && AsQuiet(before + body, before + ClassEncoding(core.className.value, core.path) + rest, from, pattern)
  {
    if body != [] && body[0] == 'Q' {
      rest := CanonicalQualified(before, body[1..], from, pattern);
      assert body == "Q" + body[1..];
    } else {
      ReadTokenParts(body);
      CanonicalToken(before, body, from, pattern);
      rest := ReadToken(body).value.rest;
    }
  }

  lemma FvIsInNoPattern(text: string, pattern: string, i: nat)
    requires pattern in {"__ct__", "__dt__"} && i + 6 > |text|
    ensures !OccursAt(text + "Fv", pattern, i)
  {
    if i + 6 <= |text| + 2 {
      assert (text + "Fv")[i..i + 6][|text| - i] == 'F';
    }
  }

  /** `Fv` behind a text brings in no special prefix. */
  lemma NoPatternInFv(text: string, rest: string, pattern: string)
    requires pattern in {"__ct__", "__dt__"} && !Contains(text + rest, pattern)
    ensures !Contains(text + "Fv", pattern)
  {
    forall i: nat
      ensures !OccursAt(text + "Fv", pattern, i)
    {
      if i + 6 <= |text| {
        OccursInFront(text, rest, pattern, i);
        OccursInFront(text, "Fv", pattern, i);
      } else {
        FvIsInNoPattern(text, pattern, i);
      }
    }
  }

  // ----- Names without dtk artifacts -----

  lemma NothingToStrip(name: string)
    requires '@' !in name
    ensures StripBuckets(name) == name && StripLocalSuffixes(name) == name
    ensures Cleaned(name) == name[AddressPrefix(name)..]
  {
  }

  /** Special prefixes and markers lie behind an address prefix. */
  lemma PatternBehind(front: string, tail: string, pattern: string)
    requires pattern in {"__ct__", "__dt__"} && forall i: nat :: OccursAt(front + tail, pattern, i) ==> i >= |front|
    ensures Contains(front + tail, pattern) <==> Contains(tail, pattern)
  {
    if Contains(front + tail, pattern) {
      var i: nat :| OccursAt(front + tail, pattern, i);
      OccursAfter(front, tail, pattern, i);
    } else if Contains(tail, pattern) {
      var i: nat :| OccursAt(tail, pattern, i);
      OccursAfter(front, tail, pattern, i + |front|);
    }
  }

  lemma PatternIsBehindAddress(name: string, pattern: string, i: nat)
    requires pattern in {"__ct__", "__dt__"} && OccursAt(name, pattern, i)
    ensures i >= AddressPrefix(name)
  {
    assert name[i] == name[i..i + 6][0] && name[i + 1] == name[i..i + 6][1];
    PairIsBehindAddress(name, i);
  }

  lemma PatternBehindAddress(name: string, pattern: string)
    requires pattern in {"__ct__", "__dt__"}
    ensures Contains(name, pattern) <==> Contains(name[AddressPrefix(name)..], pattern)
  {
    var cut := AddressPrefix(name);
    assert name[..cut] + name[cut..] == name;
    forall i: nat | OccursAt(name[..cut] + name[cut..], pattern, i)
      ensures i >= cut
    {
      PatternIsBehindAddress(name, pattern, i);
    }
    PatternBehind(name[..cut], name[cut..], pattern);
  }

  lemma LastMarkerShifts(name: string, cut: nat)
    requires cut <= |name|
    requires forall i: nat :: MarkerAt(name, i) ==> i >= cut
    ensures var tail := LastMarker(name[cut..]);
      LastMarker(name) == if tail.None? then None else Some(tail.value + cut)
  {
    assert name == name[..cut] + name[cut..];
    var all, part := LastMarker(name), LastMarker(name[cut..]);
    if part.Some? {
      MarkersBehind(name[..cut], name[cut..], part.value + cut);
    }
    if all.Some? {
      MarkersBehind(name[..cut], name[cut..], all.value);
    }
  }

  // ----- Canonical names say the same, and are canonical -----

  /** The parameters that are printed: `v` when the name has none. */
  function ParamsOrVoid(params: Option<string>): string {
    if params.Some? then params.value else "v"
  }

  function Print(core: Core): string
    requires core.className.Some?
  {
    Encoding(core.className.value, ParamsOrVoid(core.params), core.path)
  }

  /** A core that was read, printed again, brings in no special prefix; and no marker when it has
      parameters. */
  lemma PrintIsQuiet(before: string, body: string, from: nat, pattern: string)
    requires ParseCore(body).Some? && ParseCore(body).value.className.Some?
    requires from <= |before| && pattern in {"__ct__", "__dt__"} && !Contains(before + body, pattern)
    ensures var core := ParseCore(body).value;
      && !Contains(before + Print(core), pattern)
      && (core.params.Some? && NoMarkerFrom(before + body, from) ==> NoMarkerFrom(before + Print(core), from))
  {
    var core := ParseCore(body).value;
    var front := ClassEncoding(core.className.value, core.path);
    var rest := CanonicalCore(before, body, from, pattern);
    if core.params.Some? {
      assert rest == "F" + core.params.value;
      Regroup(before, front, "F", core.params.value);
    } else {
      NoPatternInFv(before + front, rest, pattern);
      Regroup(before, front, "F", "v");
      assert "Fv" == "F" + "v";
    }
  }

  /** A core that was read prints to a scope that it can be read from. */
  lemma ReadScope(body: string)
    requires ParseCore(body).Some? && ParseCore(body).value.className.Some?
    ensures var core := ParseCore(body).value;
      && IsScope(core.className.value, core.path) && |Scope(core.className.value, core.path)| <= 9
      && FullPath(core.className.value, core.path) == core.path
  {
    var rest := CanonicalCore("", body, 0, "__ct__");
  }

  // ----- Constructors and destructors -----

  lemma NothingBehind(s: string, pattern: string, at: nat)
    requires pattern in {"__ct__", "__dt__"} && at + 6 <= |s|
    requires var last := LastIndexOf(s, pattern); last.None? || last.value <= at
    ensures !Contains(s[at + 6..], pattern)
  {
    var front, tail := s[..at + 6], s[at + 6..];
    assert s == front + tail;
    forall i: nat
      ensures !OccursAt(tail, pattern, i)
    {
      OccursAfter(front, tail, pattern, i + at + 6);
    }
  }

  /** Where a constructor or destructor continues. */
  lemma SpecialBody(s: string) returns (body: string)
    requires var info := ParsedText(s); info.className.Some? && (info.isConstructor || info.isDestructor)
    ensures var info := ParsedText(s);
      && info.isDestructor == !info.isConstructor && info.isMember
      && ParseCore(body) == Some(Core(info.className, info.path, info.params))
      && !Contains(body, "__ct__") && !Contains(body, "__dt__") && ('@' !in s ==> '@' !in body)
  {
    var at := SpecialAt(s);
    body := s[at + 6..];
    SaidParts(PlaceOf(s), ParseCore(body));
    TextSays(s, body);
    NothingBehind(s, "__ct__", at);
    NothingBehind(s, "__dt__", at);
  }

  /** A name with a class says what its encoding says. */
  lemma SaidParts(place: Place, core: Option<Core>)
    requires !place.Nowhere? && Said(place, core).className.Some?
    ensures var info := Said(place, core);
      && core == Some(Core(info.className, info.path, info.params)) && info.isMember
      && (place.Special? ==> info.isConstructor == place.ctor && info.isDestructor == !place.ctor)
      && (place.Member? ==> !info.isConstructor && !info.isDestructor)
  {
  }

  lemma SpecialAt(s: string) returns (at: nat)
    requires PlaceOf(s).Special?
    ensures at + 6 == PlaceOf(s).at <= |s|
    ensures var last := LastIndexOf(s, "__ct__"); last.None? || last.value <= at
    ensures var last := LastIndexOf(s, "__dt__"); last.None? || last.value <= at
  {
    at := PlaceOf(s).at - 6;
  }

  lemma {:induction false} NoAtLeft(s: string, count: nat)
    requires '@' !in s && ReadTokens(s, count).Some?
    ensures '@' !in ReadTokens(s, count).value.rest
    decreases count
  {
    if count > 0 {
      NoAtLeft(s, count - 1);
      var rest := ReadTokens(s, count - 1).value.rest;
      var k := ReadTokenCut(rest);
    }
  }

  lemma NoAtInParams(body: string)
    requires '@' !in body && ParseCore(body).Some?
    ensures '@' !in ParamsOrVoid(ParseCore(body).value.params)
  {
    if body == [] || body[0] != 'Q' {
      var k := ReadTokenCut(body);
    } else if body[1..] != [] {
      NoAtLeft(body[1..][1..], DigitValue(body[1..][0]));
    }
  }

  lemma BodyIsQuiet(body: string, pattern: string)
    requires ParseCore(body).Some? && ParseCore(body).value.className.Some?
    requires pattern in {"__ct__", "__dt__"} && !Contains(body, pattern)
    ensures !Contains(Print(ParseCore(body).value), pattern)
  {
    var text := Print(ParseCore(body).value);
    assert "" + body == body && "" + text == text;
    PrintIsQuiet("", body, 0, pattern);
  }

  /** A constructor or destructor that was read, printed and parsed again. */
  lemma SpecialPrint(body: string)
    requires '@' !in body && ParseCore(body).Some? && ParseCore(body).value.className.Some?
    requires !Contains(body, "__ct__") && !Contains(body, "__dt__")
    ensures var core := ParseCore(body).value;
      var className, params, path := core.className.value, ParamsOrVoid(core.params), core.path;
      && Parsed(MangleCtor(className, params, path))
         == MangledName(Some(className), path, true, false, true, Some(params))
      && Parsed(MangleDtor(className, params, path))
         == MangledName(Some(className), path, false, true, true, Some(params))
  {
    var core := ParseCore(body).value;
    NoAtInParams(body);
    NothingToStrip(ParamsOrVoid(core.params));
    ReadScope(body);
    BodyIsQuiet(body, "__ct__");
    BodyIsQuiet(body, "__dt__");
    CtorRoundTripIff(core.className.value, ParamsOrVoid(core.params), core.path);
    DtorRoundTripIff(core.className.value, ParamsOrVoid(core.params), core.path);
  }

  /** The canonical name of a constructor or destructor says what the name said, and is canonical. */
  lemma CanonicalSpecial(name: string)
    requires '@' !in name
    requires var info := Parsed(name); info.className.Some? && (info.isConstructor || info.isDestructor)
    ensures var info := Parsed(name);
      var canonical := Canonical(name, info);
      && Parsed(canonical) == info.(params := Some(ParamsOrVoid(info.params)))
      && CanonicalTarget(canonical, Parsed(canonical)) == None
  {
    NothingToStrip(name);
    var body := SpecialBody(Cleaned(name));
    SpecialPrint(body);
  }

  // ----- Members -----

  /** Where a member continues. */
  lemma MemberBody(s: string) returns (at: nat)
    requires var info := ParsedText(s); info.className.Some? && !info.isConstructor && !info.isDestructor
    ensures var info := ParsedText(s);
      && info.isMember && at + 2 <= |s| && LastMarker(s) == Some(at)
      && ParseCore(s[at + 2..]) == Some(Core(info.className, info.path, info.params))
      && !Contains(s, "__ct__") && !Contains(s, "__dt__")
  {
    at := MemberAt(s);
    TextSays(s, s[at + 2..]);
    SaidParts(PlaceOf(s), ParseCore(s[at + 2..]));
  }

  lemma MemberAt(s: string) returns (at: nat)
    requires PlaceOf(s).Member?
    ensures PlaceOf(s) == Member(at + 2) && LastMarker(s) == Some(at)
    ensures !Contains(s, "__ct__") && !Contains(s, "__dt__")
  {
    NotThere(s, "__ct__");
    NotThere(s, "__dt__");
    at := LastMarker(s).value;
  }

  lemma MarkableBehindDigits(digits: string, name: string, rest: string)
    requires AllDigits(digits) && digits != [] && IsToken(name) && DigitsThenName(digits + name + rest)
    ensures IsNameStart(name[0])
  {
    assert digits + name + rest == digits + (name + rest);
    DigitsThen(digits, name + rest);
  }

  lemma ReadTokenIsMarkable(body: string)
    requires DigitsThenName(body) && ReadToken(body).Some?
    ensures var name := ReadToken(body).value.name; name != [] && IsNameStart(name[0])
  {
    ReadTokenParts(body);
    var Token(name, rest) := ReadToken(body).value;
    MarkableBehindDigits(body[..DigitRun(body)], name, rest);
  }

  /** A marker before a core that was read is a marker before its print. */
  lemma ReadIsMarkable(body: string)
    requires LooksEncoded(body) && ParseCore(body).Some? && ParseCore(body).value.className.Some?
    ensures IsMarkable(ParseCore(body).value.className.value, ParseCore(body).value.path)
  {
    if body[0] != 'Q' {
      ReadTokenIsMarkable(body);
    } else if body[1..] != [] {
      ReadTokensSize(body[1..][1..], DigitValue(body[1..][0]));
    }
  }

  lemma ShiftedPlace(name: string, cut: nat, at: nat)
    requires cut <= |name|
    requires forall i: nat :: MarkerAt(name, i) ==> i >= cut
    requires LastMarker(name[cut..]) == Some(at)
    ensures at + 2 <= |name[cut..]| && LastMarker(name) == Some(cut + at)
    ensures name[cut + at + 2..] == name[cut..][at + 2..]
  {
    LastMarkerShifts(name, cut);
  }

  /** What is said behind a cut that loses no marker. */
  lemma MemberBehind(name: string, cut: nat, info: MangledName) returns (n: nat)
    requires cut <= |name| && info == ParsedText(name[cut..])
    requires forall i: nat :: MarkerAt(name, i) ==> i >= cut
    requires info.className.Some? && !info.isConstructor && !info.isDestructor
    ensures info.isMember && LastMarker(name) == Some(n) && n + 2 <= |name|
    ensures ParseCore(name[n + 2..]) == Some(Core(info.className, info.path, info.params))
    ensures !Contains(name[cut..], "__ct__") && !Contains(name[cut..], "__dt__")
  {
    var tail := name[cut..];
    var at := MemberBody(tail);
    ShiftedPlace(name, cut, at);
    n := cut + at;
    assert name[n + 2..] == tail[at + 2..];
  }

  lemma NoMarkerInAddress(name: string)
    ensures forall i: nat :: MarkerAt(name, i) ==> i >= AddressPrefix(name)
  {
    forall i: nat | MarkerAt(name, i)
      ensures i >= AddressPrefix(name)
    {
      PairIsBehindAddress(name, i);
    }
  }

  /** The last marker of a name without dtk artifacts. */
  lemma MemberPlace(name: string) returns (n: nat)
    requires '@' !in name
    requires var info := Parsed(name); info.className.Some? && !info.isConstructor && !info.isDestructor
    ensures var info := Parsed(name);
      && info.isMember && LastMarker(name) == Some(n) && n + 2 <= |name|
      && ParseCore(name[n + 2..]) == Some(Core(info.className, info.path, info.params))
      && !Contains(name, "__ct__") && !Contains(name, "__dt__")
  {
    NothingToStrip(name);
    NoMarkerInAddress(name);
    PatternBehindAddress(name, "__ct__");
    PatternBehindAddress(name, "__dt__");
    n := MemberBehind(name, AddressPrefix(name), Parsed(name));
  }

  /** A name, taken apart at its last marker. */
  lemma MemberParts(name: string) returns (member: string, body: string)
    requires '@' !in name
    requires var info := Parsed(name); info.className.Some? && !info.isConstructor && !info.isDestructor
    ensures var info := Parsed(name);
      && info.isMember && name == member + "__" + body && member == MemberNameOf(name)
      && ParseCore(body) == Some(Core(info.className, info.path, info.params)) && LooksEncoded(body)
      && !Contains(name, "__ct__") && !Contains(name, "__dt__") && NoMarkerFrom(name, |member| + 2)
  {
    var n := MemberPlace(name);
    member, body := name[..n], name[n + 2..];
    SplitAtMarker(name, n);
  }

  lemma SplitAtMarker(name: string, n: nat)
    requires LastMarker(name) == Some(n)
    ensures MarkerAt(name, n) && name == name[..n] + "__" + name[n + 2..] && NoMarkerFrom(name, n + 2)
  {
  }

  lemma NoMarkerBehind(before: string, rest: string)
    requires NoMarkerFrom(before + rest, |before|)
    ensures !HasMarker(rest)
  {
    forall i: nat
      ensures !MarkerAt(rest, i)
    {
      MarkersBehind(before, rest, i + |before|);
    }
  }

  /** A member that was read, printed and parsed again. */
  lemma MemberPrint(member: string, body: string)
    requires '@' !in member && '@' !in body && LooksEncoded(body)
    requires ParseCore(body).Some? && ParseCore(body).value.className.Some?
    requires var name := member + "__" + body;
      !Contains(name, "__ct__") && !Contains(name, "__dt__") && NoMarkerFrom(name, |member| + 2)
    ensures var core := ParseCore(body).value;
      var className, params, path := core.className.value, ParamsOrVoid(core.params), core.path;
      && (core.params.Some? ==> !HasMarker(Print(core)))
      && (!HasMarker(Print(core)) <==>
          Parsed(MangleMember(className, member, params, path))
            == MangledName(Some(className), path, false, false, true, Some(params)))
  {
    var core := ParseCore(body).value;
    var className, params, path := core.className.value, ParamsOrVoid(core.params), core.path;
    var before := member + "__";
    NoAtInParams(body);
    NothingToStrip(params);
    ReadScope(body);
    ReadIsMarkable(body);
    PrintIsQuiet(before, body, |before|, "__ct__");
    PrintIsQuiet(before, body, |before|, "__dt__");
    if core.params.Some? {
      NoMarkerBehind(before, Print(core));
    }
    MemberRoundTripIff(className, member, params, path);
    PrintedIsQuiet(member, core);
  }

  /** Cleaning a printed member brings in no special prefix. */
  lemma PrintedIsQuiet(member: string, core: Core)
    requires '@' !in member && core.className.Some? && '@' !in ParamsOrVoid(core.params)
    requires var name := member + "__" + Print(core); !Contains(name, "__ct__") && !Contains(name, "__dt__")
    ensures var name := member + "__" + Print(core);
      !Contains(Cleaned(name), "__ct__") && !Contains(Cleaned(name), "__dt__")
  {
    var className, params, path := core.className.value, ParamsOrVoid(core.params), core.path;
    var name := member + "__" + Print(core);
    NothingToStrip(params);
    EncodingKeepsEnd(member + "__", ClassEncoding(className, path), params);
    CleanedMember(member, Print(core));
    assert Cleaned(name) == name[AddressPrefix(name)..];
    PatternBehindAddress(name, "__ct__");
    PatternBehindAddress(name, "__dt__");
  }

  /** The canonical name of a member is what the parser reads the same parts from exactly when its
      print holds no marker; a name with parameters always prints so. Then it is canonical itself. */
  lemma CanonicalMemberIff(name: string)
    requires '@' !in name
    requires var info := Parsed(name); info.className.Some? && !info.isConstructor && !info.isDestructor
    ensures var info := Parsed(name);
      var canonical, params := Canonical(name, info), ParamsOrVoid(info.params);
      && (Parsed(canonical) == info.(params := Some(params)) <==>
          !HasMarker(Encoding(info.className.value, params, info.path)))
      && (info.params.Some? ==> Parsed(canonical) == info)
      && (Parsed(canonical) == info.(params := Some(params)) ==>
          CanonicalTarget(canonical, Parsed(canonical)) == None)
  {
    var info := Parsed(name);
    var member, body := MemberParts(name);
    MemberPrint(member, body);
    var rest := Encoding(info.className.value, ParamsOrVoid(info.params), info.path);
    ReadScope(body);
    ReadIsMarkable(body);
    if !HasMarker(rest) {
      PrintedMember(info.className.value, member, ParamsOrVoid(info.params), info.path);
    }
  }

  lemma OneMarker(name: string)
    requires name == "Fv__6abc__5"
    ensures LastMarker(name) == Some(2) && name[4..] == "6abc__5"
  {
    assert name[4..] == "6abc__5" && name[10..] == "5";
    assert MarkerAt(name, 2);
    forall i: nat
      ensures MarkerAt(name, i) ==> i == 2
    {
      if i != 2 && i + 2 <= |name| {
        assert name[i] != '_' || name[i + 1] != '_' || i == 8;
      }
    }
    var last := LastMarker(name);
    assert last.Some? && MarkerAt(name, last.value);
  }

  lemma NoSpecialPrefix(name: string)
    requires name == "Fv__6abc__5"
    ensures LastIndexOf(name, "__ct__") == None && LastIndexOf(name, "__dt__") == None
  {
    forall i: nat
      ensures !OccursAt(name, "__ct__", i) && !OccursAt(name, "__dt__", i)
    {
      if i + 6 <= |name| {
        assert name[i..i + 6][2] == name[i + 2] && "__ct__"[2] == 'c' && "__dt__"[2] == 'd';
        assert i + 2 in {2, 3, 4, 5, 6, 7} && name[7] == 'c' && name[5..11][0] == 'a';
      }
    }
  }

  lemma NoParameters(name: string)
    requires name == "Fv__6abc__5"
    ensures '@' !in name && Cleaned(name) == name && LastIndexOf(name, "Fv").Some?
  {
    NothingToStrip(name);
    assert AddressPrefix(name) == 0 && name[0..] == name;
    assert name[0..0 + 2] == "Fv";
    assert OccursAt(name, "Fv", 0);
  }

  lemma ReadMarkedToken(body: string)
    requires body == "6abc__5"
    ensures ParseCore(body) == Some(Core(Some("abc__5"), [], None))
  {
    assert DigitRun(body[1..]) == 0 && DigitRun(body) == 1;
    assert body[..1] == "6" && "6"[..0] == "" && Value("6") == 6;
    assert body[1..7] == "abc__5" && body[7..] == "";
  }

  lemma MarkedTokenIsRead(name: string)
    requires name == "Fv__6abc__5"
    ensures Parsed(name) == MangledName(Some("abc__5"), [], false, false, true, None) && MemberNameOf(name) == "Fv"
  {
    OneMarker(name);
    NoSpecialPrefix(name);
    NoParameters(name);
    ReadMarkedToken(name[4..]);
  }

  lemma MarkedPrintDiffers(name: string, info: MangledName, i: nat)
    requires '@' !in name && info == Parsed(name) && info.className.Some?
    requires !info.isConstructor && !info.isDestructor
    requires MarkerAt(Encoding(info.className.value, ParamsOrVoid(info.params), info.path), i)
    ensures Parsed(Canonical(name, info)) != info.(params := Some(ParamsOrVoid(info.params)))
  {
    CanonicalMemberIff(name);
  }

  lemma MarkedPrint(rest: string)
    requires rest == Encoding("abc__5", "v", [])
    ensures rest == "6abc__5Fv" && MarkerAt(rest, 4)
  {
    CountDigit(6);
    assert rest == "6abc__5Fv";
    assert rest[6..] == "5Fv";
  }

  lemma CanonicalOfMarked(name: string, info: MangledName)
    requires info == MangledName(Some("abc__5"), [], false, false, true, None)
    requires MemberNameOf(name) == "Fv" && name == "Fv__6abc__5"
    ensures Canonical(name, info) == "Fv__6abc__5Fv" && Canonical(name, info) != name
  {
    var rest := Encoding("abc__5", "v", []);
    MarkedPrint(rest);
    assert "Fv" + "__" + rest == "Fv__6abc__5Fv";
  }

  /** A member "Fv" of a class "abc__5", without parameters: with them its print holds a second marker, and
      the canonical name that the tool asks for says something else. */
  lemma MarkedTokenIsNotCanonical(name: string)
    requires name == "Fv__6abc__5"
    ensures var info := Parsed(name);
      && info.className == Some("abc__5") && CanonicalTarget(name, info) == Some("Fv__6abc__5Fv")
      && Parsed("Fv__6abc__5Fv") != info.(params := Some("v"))
  {
    MarkedTokenIsRead(name);
    NoParameters(name);
    CanonicalOfMarked(name, Parsed(name));
    MarkedPrint(Encoding("abc__5", "v", []));
    MarkedPrintDiffers(name, Parsed(name), 4);
  }

  /** The member of a print without a second marker is found again. */
  lemma PrintedMember(className: string, member: string, params: string, path: seq<string>)
    requires IsScope(className, path) && IsMarkable(className, path) && !HasMarker(Encoding(className, params, path))
    requires |Scope(className, path)| <= 9
    ensures MemberNameOf(MangleMember(className, member, params, path)) == member
  {
    var rest := Encoding(className, params, path);
    PrintLooksEncoded(className, params, path);
    PrintStart(className, params, path);
    LastMarkerOfPrint(member, rest);
    assert (member + "__" + rest)[..|member|] == member;
  }
}
