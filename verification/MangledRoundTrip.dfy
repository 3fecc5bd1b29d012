/** Parsing undoes printing, exactly when the text has no second marker; and printing what was parsed
    gives a canonical name. */
module MangledRoundTrip {
  import opened Prelude
  import opened MangledNames

  // ----- Numerals -----

  lemma {:induction false} DigitRunOf(digits: string, rest: string)
    requires AllDigits(digits) && (rest != [] ==> !IsDigit(rest[0]))
    ensures DigitRun(digits + rest) == |digits|
    decreases |digits|
  {
    if digits == [] {
      assert digits + rest == rest;
    } else {
      assert (digits + rest)[1..] == digits[1..] + rest;
      DigitRunOf(digits[1..], rest);
    }
  }

  lemma {:induction false} DigitRunIsMaximal(s: string)
    ensures var n := DigitRun(s); AllDigits(s[..n]) && (n < |s| ==> !IsDigit(s[n]))
    decreases |s|
  {
    if s != [] && IsDigit(s[0]) {
      DigitRunIsMaximal(s[1..]);
      var n := DigitRun(s);
      assert s[..n] == [s[0]] + s[1..][..n - 1];
    }
  }

  lemma {:induction false} DecimalIsNumeral(n: nat)
    ensures Decimal(n) != [] && AllDigits(Decimal(n)) && Value(Decimal(n)) == n
  {
    if n < 10 {
      assert Decimal(n)[..0] == [];
    } else {
      DecimalIsNumeral(n / 10);
      assert Decimal(n)[..|Decimal(n)| - 1] == Decimal(n / 10);
    }
  }

  /** No numeral of n, or of anything larger, is shorter than its decimal form. */
  lemma {:induction false} DecimalIsShortest(n: nat, digits: string)
    requires AllDigits(digits) && digits != [] && n <= Value(digits)
    ensures |Decimal(n)| <= |digits|
    decreases |digits|
  {
    var init := digits[..|digits| - 1];
    assert init == [] ==> Value(init) == 0;
    if n >= 10 {
      DecimalIsShortest(n / 10, init);
    }
  }

  // ----- Tokens -----

  /** A token does not run into its own length digits. */
  predicate IsToken(t: string) {
    t != [] && !IsDigit(t[0])
  }

  lemma ReadOwnToken(t: string, rest: string)
    requires IsToken(t)
    ensures ReadToken(TokenText(t) + rest) == Some(Token(t, rest))
  {
    var digits := Decimal(|t|);
    var s := TokenText(t) + rest;
    DecimalIsNumeral(|t|);
    assert s == digits + (t + rest);
    DigitRunOf(digits, t + rest);
    assert s[..|digits|] == digits;
    assert s[|digits|..|digits| + |t|] == t && s[|digits| + |t|..] == rest;
  }

  lemma ReadOneOwnToken(init: seq<string>, t: string, rest: string)
    requires IsToken(t)
    ensures ReadOneMore(Tokens(init, TokenText(t) + rest)) == Some(Tokens(init + [t], rest))
  {
    ReadOwnToken(t, rest);
  }

  lemma TokensTextLast(init: seq<string>, last: string, rest: string)
    ensures TokensText(init + [last]) + rest == TokensText(init) + (TokenText(last) + rest)
  {
    assert (init + [last])[..|init|] == init;
  }

  lemma {:induction false} ReadOwnTokens(tokens: seq<string>, rest: string)
    requires forall i :: 0 <= i < |tokens| ==> IsToken(tokens[i])
    ensures ReadTokens(TokensText(tokens) + rest, |tokens|) == Some(Tokens(tokens, rest))
    decreases |tokens|
  {
    if tokens == [] {
      assert TokensText(tokens) + rest == rest;
    } else {
      var init, last := tokens[..|tokens| - 1], tokens[|tokens| - 1];
      assert tokens == init + [last];
      ReadOwnTokens(init, TokenText(last) + rest);
      ReadOneOwnToken(init, last, rest);
      TokensTextLast(init, last, rest);
      ReadTokensStep(TokensText(tokens) + rest, |init|);
    }
  }

  lemma ReadTokenCut(s: string) returns (k: nat)
    requires ReadToken(s).Some?
    ensures var n := DigitRun(s);
      0 < k <= Value(s[..n]) && n + k <= |s| && ReadToken(s) == Some(Token(s[n..n + k], s[n + k..]))
  {
    var n := DigitRun(s);
    var length := Value(s[..n]);
    k := if n + length <= |s| then length else IndexOf(s[n..], 'F').value;
  }

  /** What a token was read from: digits, at least as many as its length needs, and its name. */
  lemma ReadTokenParts(s: string)
    requires ReadToken(s).Some?
    ensures var Token(name, rest) := ReadToken(s).value;
      var n := DigitRun(s);
      && IsToken(name) && 0 < n && AllDigits(s[..n]) && s == s[..n] + name + rest
      && |Decimal(|name|)| <= n
  {
    var n := DigitRun(s);
    var k := ReadTokenCut(s);
    DigitRunIsMaximal(s);
    CutParts(s, n, k);
    DecimalIsShortest(k, s[..n]);
  }

  lemma CutParts(s: string, n: nat, k: nat)
    requires n + k <= |s| && 0 < k <= Value(s[..n])
    ensures n > 0 && s == s[..n] + s[n..n + k] + s[n + k..] && s[n..n + k][0] == s[n]
  {
    assert s[..0] == "" && Value("") == 0;
  }

  lemma {:induction false} ReadTokensSize(s: string, count: nat)
    requires ReadTokens(s, count).Some?
    ensures var Tokens(names, rest) := ReadTokens(s, count).value;
      && |names| == count && |TokensText(names)| + |rest| <= |s|
      && forall i :: 0 <= i < |names| ==> IsToken(names[i])
    decreases count
  {
    if count > 0 {
      ReadTokensSize(s, count - 1);
      var before := ReadTokens(s, count - 1).value;
      ReadTokenParts(before.rest);
      var Token(name, rest) := ReadToken(before.rest).value;
      var names := before.names + [name];
      assert names[..|names| - 1] == before.names;
    }
  }

  // ----- The core -----

  /** The tokens that a name prints. */
  function Scope(className: string, path: seq<string>): seq<string> {
    if path == [] then [className] else FullPath(className, path)
  }

  ghost predicate IsScope(className: string, path: seq<string>) {
    forall i :: 0 <= i < |Scope(className, path)| ==> IsToken(Scope(className, path)[i])
  }

  lemma CountDigit(n: nat)
    requires 1 <= n <= 9
    ensures Decimal(n) == [Digit(n)] && '1' <= Digit(n) <= '9' && DigitValue(Digit(n)) == n
  {
  }

  lemma ParseOwnPath(names: seq<string>, rest: string)
    requires 1 <= |names| <= 9 && forall i :: 0 <= i < |names| ==> IsToken(names[i])
    ensures Qualified(Decimal(|names|) + (TokensText(names) + rest))
      == Some(Core(Some(names[|names| - 1]), names, ParamsOf(rest)))
  {
    CountDigit(|names|);
    ReadOwnTokens(names, rest);
    var body := [Digit(|names|)] + (TokensText(names) + rest);
    assert body[1..] == TokensText(names) + rest;
  }

  lemma ParseOwnClass(className: string, rest: string)
    requires IsToken(className)
    ensures ParseCore(TokenText(className) + rest) == Some(Core(Some(className), [], ParamsOf(rest)))
  {
    ReadOwnToken(className, rest);
    DecimalIsNumeral(|className|);
    assert IsDigit(TokenText(className)[0]);
  }

  lemma ParseOwnQualified(names: seq<string>, rest: string)
    requires 1 <= |names| <= 9 && forall i :: 0 <= i < |names| ==> IsToken(names[i])
    ensures ParseCore("Q" + (Decimal(|names|) + (TokensText(names) + rest)))
      == Some(Core(Some(names[|names| - 1]), names, ParamsOf(rest)))
  {
    var text := Decimal(|names|) + (TokensText(names) + rest);
    ParseOwnPath(names, rest);
    assert ("Q" + text)[1..] == text;
  }

  lemma EncodingText(className: string, params: string, path: seq<string>)
    ensures path == [] ==> Encoding(className, params, path) == TokenText(className) + ("F" + params)
    ensures path != [] ==>
      var full := FullPath(className, path);
      Encoding(className, params, path) == "Q" + (Decimal(|full|) + (TokensText(full) + ("F" + params)))
  {
  }

  /** The core parser undoes the printer. */
  lemma ParseOwnCore(className: string, params: string, path: seq<string>)
    requires IsScope(className, path) && |Scope(className, path)| <= 9
    ensures ParseCore(Encoding(className, params, path))
      == Some(Core(Some(className), FullPath(className, path), Some(params)))
  {
    EncodingText(className, params, path);
    if path == [] {
      assert Scope(className, path)[0] == className;
      ParseOwnClass(className, "F" + params);
    } else {
      ParseOwnQualified(FullPath(className, path), "F" + params);
    }
  }

  /** A core is never shorter than the print of what it says. */
  lemma CoreSize(body: string)
    requires ParseCore(body).Some? && ParseCore(body).value.params.Some?
    ensures var core := ParseCore(body).value;
      && core.className.Some? && |core.path| <= 9
      && IsScope(core.className.value, core.path) && FullPath(core.className.value, core.path) == core.path
      && |Encoding(core.className.value, core.params.value, core.path)| <= |body|
  {
    if body != [] && body[0] == 'Q' {
      var count := DigitValue(body[1..][0]);
      ReadTokensSize(body[1..][1..], count);
      CountDigit(count);
    } else {
      ReadTokenParts(body);
    }
  }

  lemma ShortPath(body: string)
    requires ParseCore(body).Some?
    ensures |ParseCore(body).value.path| <= 9
  {
    if body != [] && body[0] == 'Q' && body[1..] != [] {
      ReadTokensSize(body[1..][1..], DigitValue(body[1..][0]));
    }
  }

  lemma FullPathIsFull(className: string, params: string, path: seq<string>)
    ensures Encoding(className, params, FullPath(className, path)) == Encoding(className, params, path)
    ensures FullPath(className, FullPath(className, path)) == FullPath(className, path)
  {
  }

  /** What starts later in the text cannot say the same. */
  lemma LaterCoreDiffers(className: string, params: string, path: seq<string>, k: nat)
    requires 0 < k <= |Encoding(className, params, path)|
    ensures ParseCore(Encoding(className, params, path)[k..])
      != Some(Core(Some(className), FullPath(className, path), Some(params)))
  {
    var later := Encoding(className, params, path)[k..];
    FullPathIsFull(className, params, path);
    if ParseCore(later).Some? && ParseCore(later).value.params.Some? {
      CoreSize(later);
    }
  }

  // ----- Cleaning -----

  lemma {:induction false} StrippingShortens(s: string)
    ensures |StripLocalSuffixes(s)| <= |s|
    decreases |s|
  {
    var at := LastAt(s);
    if at.Some? && IsLocalSuffix(s[at.value..]) {
      StrippingShortens(s[..at.value]);
    }
  }

  lemma NoSuffixAtEnd(s: string)
    requires StripLocalSuffixes(s) == s
    ensures LastAt(s).Some? ==> !IsLocalSuffix(s[LastAt(s).value..])
  {
    var at := LastAt(s);
    if at.Some? && IsLocalSuffix(s[at.value..]) {
      StrippingShortens(s[..at.value]);
    }
  }

  lemma SignatureIsNoSuffix(s: string, i: nat)
    requires 0 < i < |s| && s[i] == 'F'
    ensures !IsLocalSuffix(s)
  {
    assert s[1..][i - 1] == 'F';
  }

  lemma {:induction false} LastAtIs(s: string, i: nat)
    requires i < |s| && s[i] == '@' && '@' !in s[i + 1..]
    ensures LastAt(s) == Some(i)
    decreases |s|
  {
    if i < |s| - 1 {
      var init := s[..|s| - 1];
      assert s[i + 1..] == init[i + 1..] + [s[|s| - 1]];
      LastAtIs(init, i);
    }
  }

  /** A printed name keeps its end when its parameters do. */
  lemma PrintKeepsEnd(before: string, params: string)
    requires StripLocalSuffixes(params) == params
    ensures StripLocalSuffixes(before + "F" + params) == before + "F" + params
  {
    var s, n := before + "F" + params, |before|;
    var at := LastAt(s);
    if at.Some? {
      if at.value <= n {
        SignatureIsNoSuffix(s[at.value..], n - at.value);
      } else {
        var i := at.value - n - 1;
        NoSuffixAtEnd(params);
        assert s[n + 1..] == params;
        assert s[at.value..] == params[i..] && s[at.value + 1..] == params[i + 1..];
        LastAtIs(params, i);
      }
    }
  }

  lemma HasNoPair(s: string, prefix: string, k: nat, i: nat)
    requires prefix == "func_" || prefix == "lbl_" || prefix == "data_"
    requires HasAddress(s, prefix) && i + 1 < |s| && s[i] == '_' && s[i + 1] == '_'
    requires k == |prefix| + 8
    ensures i >= k
  {
    assert forall j :: 0 <= j < |prefix| ==> s[j] == s[..|prefix|][j];
  }

  /** The two underscores of a marker never fall into an address prefix. */
  lemma PairIsBehindAddress(s: string, i: nat)
    requires i + 1 < |s| && s[i] == '_' && s[i + 1] == '_'
    ensures AddressPrefix(s) <= i
  {
    if HasAddress(s, "func_") { HasNoPair(s, "func_", 13, i); }
    if HasAddress(s, "lbl_") { HasNoPair(s, "lbl_", 12, i); }
    if HasAddress(s, "data_") { HasNoPair(s, "data_", 13, i); }
  }

  /** Only an address prefix is stripped from a name that starts with no bucket and ends with no suffix. */
  lemma CleanedMember(member: string, rest: string)
    requires member == "" || member[0] != '@'
    requires StripLocalSuffixes(member + "__" + rest) == member + "__" + rest
    ensures var cut := AddressPrefix(member + "__" + rest);
      cut <= |member| && Cleaned(member + "__" + rest) == member[cut..] + "__" + rest
  {
    var name := member + "__" + rest;
    PairIsBehindAddress(name, |member|);
    var cut := AddressPrefix(name);
    assert name[cut..] == member[cut..] + "__" + rest;
  }

  // ----- The round trip -----

  /** What the parser should say about a printed name. */
  function Recovered(className: string, params: string, path: seq<string>, ctor: bool, dtor: bool): MangledName {
    MangledName(Some(className), FullPath(className, path), ctor, dtor, true, Some(params))
  }

  /** Behind the digits of an unscoped class comes what the marker pattern asks for. */
  predicate IsMarkable(className: string, path: seq<string>) {
    path == [] ==> className != [] && IsNameStart(className[0])
  }

  lemma {:induction false} DigitsLookEncoded(digits: string, rest: string)
    requires AllDigits(digits) && digits != [] && rest != [] && IsNameStart(rest[0])
    ensures DigitsThenName(digits + rest)
    decreases |digits|
  {
    if |digits| > 1 {
      assert (digits + rest)[1..] == digits[1..] + rest;
      DigitsLookEncoded(digits[1..], rest);
    }
  }

  lemma PrintLooksEncoded(className: string, params: string, path: seq<string>)
    requires IsScope(className, path) && IsMarkable(className, path)
    ensures LooksEncoded(Encoding(className, params, path))
  {
    EncodingText(className, params, path);
    if path == [] {
      DecimalIsNumeral(|className|);
      assert Encoding(className, params, path) == Decimal(|className|) + (className + ("F" + params));
      DigitsLookEncoded(Decimal(|className|), className + ("F" + params));
    } else {
      DecimalIsNumeral(|FullPath(className, path)|);
    }
  }

  lemma PrintStart(className: string, params: string, path: seq<string>)
    ensures var s := Encoding(className, params, path); s != [] && (s[0] == 'Q' || IsDigit(s[0]))
  {
    EncodingText(className, params, path);
    DecimalIsNumeral(|className|);
  }

  lemma MarkersBehind(before: string, rest: string, i: nat)
    requires i >= |before|
    ensures MarkerAt(before + rest, i) <==> MarkerAt(rest, i - |before|)
  {
    var s := before + rest;
    if i + 2 <= |s| {
      assert s[i + 2..] == rest[i - |before| + 2..];
    }
  }

  /** Behind the marker of a printed member there is another one only when the encoding holds one. */
  lemma LastMarkerOfPrint(member: string, rest: string)
    requires LooksEncoded(rest) && (rest[0] == 'Q' || IsDigit(rest[0]))
    ensures var last := LastMarker(member + "__" + rest);
      && last.Some? && last.value >= |member|
      && (last.value == |member| <==> !HasMarker(rest))
      && (last.value > |member| ==> last.value >= |member| + 2)
  {
    var s, n := member + "__" + rest, |member|;
    MarkerOfPrint(member, rest);
    var last := LastMarker(s).value;
    if HasMarker(rest) {
      var i: nat :| MarkerAt(rest, i);
      MarkersBehind(member + "__", rest, n + 2 + i);
      assert last >= n + 2 + i;
    }
    if last >= n + 2 {
      MarkersBehind(member + "__", rest, last);
    }
  }

  lemma MarkerOfPrint(member: string, rest: string)
    requires LooksEncoded(rest) && (rest[0] == 'Q' || IsDigit(rest[0]))
    ensures MarkerAt(member + "__" + rest, |member|) && !MarkerAt(member + "__" + rest, |member| + 1)
  {
    var s, n := member + "__" + rest, |member|;
    assert s[n + 2..] == rest && s[n + 2] == rest[0];
  }

  lemma NotThere(s: string, pattern: string)
    ensures LastIndexOf(s, pattern).None? <==> !Contains(s, pattern)
  {
  }

  /** Without `__ct__` and `__dt__`, the last marker decides. */
  lemma MemberPlaced(s: string, n: nat)
    requires !Contains(s, "__ct__") && !Contains(s, "__dt__") && LastMarker(s) == Some(n)
    ensures PlaceOf(s) == Member(n + 2)
  {
    NotThere(s, "__ct__");
    NotThere(s, "__dt__");
  }

  lemma SpecialPlaced(s: string)
    requires Contains(s, "__ct__") || Contains(s, "__dt__")
    ensures PlaceOf(s).Special?
  {
    NotThere(s, "__ct__");
    NotThere(s, "__dt__");
  }

  /** What is said determines what the encoding says. */
  lemma SaidMemberIff(place: Place, core: Option<Core>, said: Core)
    requires place.Member? && said.className.Some?
    ensures Said(place, core) == Said(Member(0), Some(said)) <==> core == Some(said)
  {
  }

  /** The core parser recovers a print exactly when one digit counts its tokens. */
  lemma CoreOfPrint(className: string, params: string, path: seq<string>)
    requires IsScope(className, path)
    ensures |Scope(className, path)| <= 9 <==>
      ParseCore(Encoding(className, params, path))
      == Some(Core(Some(className), FullPath(className, path), Some(params)))
  {
    if |Scope(className, path)| <= 9 {
      ParseOwnCore(className, params, path);
    } else if ParseCore(Encoding(className, params, path)).Some? {
      ShortPath(Encoding(className, params, path));
    }
  }

  /** A text says `said` exactly when its first encoding does and is the last, if no later part does. */
  lemma PlainMemberIff(s: string, member: string, rest: string, said: Core)
    requires s == member + "__" + rest && LooksEncoded(rest) && (rest[0] == 'Q' || IsDigit(rest[0]))
    requires !Contains(s, "__ct__") && !Contains(s, "__dt__")
    requires said.className.Some?
    requires forall k :: 0 < k <= |rest| ==> ParseCore(rest[k..]) != Some(said)
    ensures ParsedText(s) == Said(Member(0), Some(said)) <==> ParseCore(rest) == Some(said) && !HasMarker(rest)
  {
    var k := MemberPlaceOf(member, rest);
    TextSays(s, rest[k..]);
    SaidMemberIff(PlaceOf(s), ParseCore(rest[k..]), said);
  }

  /** Behind the marker the encoding starts at once, or behind a later marker. */
  lemma MemberPlaceOf(member: string, rest: string) returns (k: nat)
    requires LooksEncoded(rest) && (rest[0] == 'Q' || IsDigit(rest[0]))
    requires !Contains(member + "__" + rest, "__ct__") && !Contains(member + "__" + rest, "__dt__")
    ensures var s := member + "__" + rest;
      k <= |rest| && PlaceOf(s).Member? && s[PlaceOf(s).at..] == rest[k..]
    ensures (k == 0 <==> !HasMarker(rest)) && rest[0..] == rest
  {
    LastMarkerOfPrint(member, rest);
    var last := LastMarker(member + "__" + rest).value;
    k := if last > |member| then last - |member| else 0;
    MemberPlaced(member + "__" + rest, last);
    BehindPart(member + "__", rest, k);
  }

  lemma TextSays(s: string, part: string)
    requires !PlaceOf(s).Nowhere? && s[PlaceOf(s).at..] == part
    ensures ParsedText(s) == Said(PlaceOf(s), ParseCore(part))
  {
  }

  lemma BehindPart(front: string, rest: string, k: nat)
    requires k <= |rest|
    ensures (front + rest)[|front| + k..] == rest[k..] && rest[0..] == rest
  {
  }

  /** The text of a member, parsed. */
  lemma MemberTextIff(className: string, member: string, params: string, path: seq<string>)
    requires IsScope(className, path) && IsMarkable(className, path)
    ensures var rest := Encoding(className, params, path);
      var s := member + "__" + rest;
      ParsedText(s) == Recovered(className, params, path, false, false) <==>
        && |Scope(className, path)| <= 9
        && !Contains(s, "__ct__") && !Contains(s, "__dt__") && !HasMarker(rest)
  {
    var rest := Encoding(className, params, path);
    var s := member + "__" + rest;
    var said := Core(Some(className), FullPath(className, path), Some(params));
    if Contains(s, "__ct__") || Contains(s, "__dt__") {
      SpecialPlaced(s);
    } else {
      PrintLooksEncoded(className, params, path);
      PrintStart(className, params, path);
      NoLaterCore(className, params, path);
      PlainMemberIff(s, member, rest, said);
      CoreOfPrint(className, params, path);
    }
  }

  /** Parsing a printed member recovers its class, scope and parameters exactly when one digit counts
      the scope, nothing in the name reads as a constructor or destructor, and the encoding holds no
      second member marker. */
  lemma MemberRoundTripIff(className: string, member: string, params: string, path: seq<string>)
    requires IsScope(className, path) && IsMarkable(className, path)
    requires member == "" || member[0] != '@'
    requires StripLocalSuffixes(params) == params
    ensures var name := MangleMember(className, member, params, path);
      Parsed(name) == Recovered(className, params, path, false, false) <==>
        && |Scope(className, path)| <= 9
        && !Contains(Cleaned(name), "__ct__") && !Contains(Cleaned(name), "__dt__")
        && !HasMarker(Encoding(className, params, path))
  {
    MemberCleaned(className, member, params, path);
    MemberTextIff(className, StrippedMember(className, member, params, path), params, path);
  }

  /** The member without an address in front of it. */
  function StrippedMember(className: string, member: string, params: string, path: seq<string>): string {
    var at := AddressPrefix(member + "__" + Encoding(className, params, path));
    if at <= |member| then member[at..] else member
  }

  lemma MemberCleaned(className: string, member: string, params: string, path: seq<string>)
    requires IsScope(className, path)
    requires member == "" || member[0] != '@'
    requires StripLocalSuffixes(params) == params
    ensures Cleaned(MangleMember(className, member, params, path))
         == StrippedMember(className, member, params, path) + "__" + Encoding(className, params, path)
  {
    EncodingKeepsEnd(member + "__", ClassEncoding(className, path), params);
    CleanedMember(member, Encoding(className, params, path));
  }

  lemma EncodingKeepsEnd(before: string, front: string, params: string)
    requires StripLocalSuffixes(params) == params
    ensures StripLocalSuffixes(before + (front + "F" + params)) == before + (front + "F" + params)
  {
    PrintKeepsEnd(before + front, params);
    Regroup(before, front, "F", params);
  }

  // ----- Constructors and destructors -----

  lemma {:induction false} LastBelowIs(s: string, pattern: string, n: nat, i: nat)
    requires i < n && OccursAt(s, pattern, i)
    requires forall j: nat :: i < j < n ==> !OccursAt(s, pattern, j)
    ensures LastBelow(s, pattern, n) == Some(i)
    decreases n
  {
    if i < n - 1 {
      LastBelowIs(s, pattern, n - 1, i);
    }
  }

  /** A special prefix is the last of its kind exactly when the rest holds none; occurrences cannot
      straddle the two. */
  lemma OccursBehind(prefix: string, rest: string, pattern: string, i: nat)
    requires prefix in {"__ct__", "__dt__"} && pattern in {"__ct__", "__dt__"}
    requires rest != [] && (rest[0] == 'Q' || IsDigit(rest[0]))
    ensures OccursAt(prefix + rest, pattern, i) <==>
      (i == 0 && prefix == pattern) || (i >= 6 && OccursAt(rest, pattern, i - 6))
  {
    var s := prefix + rest;
    assert s[6] == rest[0];
    if i >= 6 {
      if i + 6 <= |s| {
        assert s[i..i + 6] == rest[i - 6..i];
      }
    } else if OccursAt(s, pattern, i) {
      assert s[i] == s[i..i + 6][0] && s[i + 1] == s[i..i + 6][1] && s[i + 2] == s[i..i + 6][2];
      if i == 0 {
        assert s[..6] == prefix;
      }
    } else if i == 0 {
      assert s[..6] == prefix;
    }
  }

  lemma LastOfPrefix(prefix: string, rest: string, pattern: string)
    requires prefix in {"__ct__", "__dt__"} && pattern in {"__ct__", "__dt__"}
    requires rest != [] && (rest[0] == 'Q' || IsDigit(rest[0]))
    ensures var last := LastIndexOf(prefix + rest, pattern);
      && (!Contains(rest, pattern) ==> last == if prefix == pattern then Some(0) else None)
      && (Contains(rest, pattern) ==>
          last.Some? && 6 <= last.value <= |rest| && OccursAt(rest, pattern, last.value - 6))
  {
    var s := prefix + rest;
    forall i: nat ensures OccursAt(s, pattern, i) <==>
      (i == 0 && prefix == pattern) || (i >= 6 && OccursAt(rest, pattern, i - 6))
    {
      OccursBehind(prefix, rest, pattern, i);
    }
    if Contains(rest, pattern) {
      var i: nat :| OccursAt(rest, pattern, i);
      assert OccursAt(s, pattern, i + 6);
      assert LastIndexOf(s, pattern).Some? && LastIndexOf(s, pattern).value >= i + 6;
    } else if prefix == pattern {
      LastBelowIs(s, pattern, |s| + 1, 0);
    } else {
      assert LastIndexOf(s, pattern).None?;
    }
  }

  lemma SpecialIsNotCleaned(prefix: string, rest: string)
    requires prefix in {"__ct__", "__dt__"} && StripLocalSuffixes(prefix + rest) == prefix + rest
    ensures Cleaned(prefix + rest) == prefix + rest
  {
    PairIsBehindAddress(prefix + rest, 0);
  }

  /** Behind a special prefix the encoding starts at once, or behind a later prefix. */
  lemma SpecialPlaceOf(prefix: string, rest: string) returns (k: nat)
    requires prefix in {"__ct__", "__dt__"} && rest != [] && (rest[0] == 'Q' || IsDigit(rest[0]))
    ensures var s := prefix + rest;
      k <= |rest| && PlaceOf(s).Special? && s[PlaceOf(s).at..] == rest[k..]
    ensures (k == 0 <==> !Contains(rest, "__ct__") && !Contains(rest, "__dt__")) && rest[0..] == rest
    ensures k == 0 ==> PlaceOf(prefix + rest).ctor == (prefix == "__ct__")
  {
    LastOfPrefix(prefix, rest, "__ct__");
    LastOfPrefix(prefix, rest, "__dt__");
    k := PlaceOf(prefix + rest).at - 6;
    BehindPart(prefix, rest, k);
  }

  /** A text behind a special prefix says `said` exactly when no other prefix follows, if no later part
      says it. */
  lemma SpecialTextIff(prefix: string, rest: string, said: Core)
    requires prefix in {"__ct__", "__dt__"} && rest != [] && (rest[0] == 'Q' || IsDigit(rest[0]))
    requires said.className.Some?
    requires forall k :: 0 < k <= |rest| ==> ParseCore(rest[k..]) != Some(said)
    ensures ParsedText(prefix + rest) == Said(Special(6, prefix == "__ct__"), Some(said)) <==>
      ParseCore(rest) == Some(said) && !Contains(rest, "__ct__") && !Contains(rest, "__dt__")
  {
    var k := SpecialPlaceOf(prefix, rest);
    TextSays(prefix + rest, rest[k..]);
    SaidSpecialIff(PlaceOf(prefix + rest), ParseCore(rest[k..]), Special(6, prefix == "__ct__"), said);
  }

  lemma SaidSpecialIff(place: Place, core: Option<Core>, other: Place, said: Core)
    requires place.Special? && other.Special? && said.className.Some?
    ensures Said(place, core) == Said(other, Some(said)) <==> core == Some(said) && place.ctor == other.ctor
  {
  }

  lemma NoLaterCore(className: string, params: string, path: seq<string>)
    requires IsScope(className, path)
    ensures var rest := Encoding(className, params, path);
      var said := Core(Some(className), FullPath(className, path), Some(params));
      forall k :: 0 < k <= |rest| ==> ParseCore(rest[k..]) != Some(said)
  {
    var rest := Encoding(className, params, path);
    forall k | 0 < k <= |rest|
      ensures ParseCore(rest[k..]) != Some(Core(Some(className), FullPath(className, path), Some(params)))
    {
      LaterCoreDiffers(className, params, path, k);
    }
  }

  lemma SpecialCleaned(prefix: string, className: string, params: string, path: seq<string>)
    requires prefix in {"__ct__", "__dt__"} && StripLocalSuffixes(params) == params
    ensures var s := prefix + Encoding(className, params, path); Cleaned(s) == s
  {
    EncodingKeepsEnd(prefix, ClassEncoding(className, path), params);
    SpecialIsNotCleaned(prefix, Encoding(className, params, path));
  }

  lemma SpecialRoundTripIff(prefix: string, className: string, params: string, path: seq<string>)
    requires prefix in {"__ct__", "__dt__"}
    requires IsScope(className, path) && StripLocalSuffixes(params) == params
    ensures var rest := Encoding(className, params, path);
      Parsed(prefix + rest) == Recovered(className, params, path, prefix == "__ct__", prefix == "__dt__") <==>
        && |Scope(className, path)| <= 9
        && !Contains(rest, "__ct__") && !Contains(rest, "__dt__")
  {
    SpecialCleaned(prefix, className, params, path);
    PrintStart(className, params, path);
    NoLaterCore(className, params, path);
    var said := Core(Some(className), FullPath(className, path), Some(params));
    SpecialTextIff(prefix, Encoding(className, params, path), said);
    CoreOfPrint(className, params, path);
  }

  /** Parsing a printed constructor recovers it exactly when one digit counts the scope and nothing
      behind the prefix reads as a constructor or destructor. */
  lemma CtorRoundTripIff(className: string, params: string, path: seq<string>)
    requires IsScope(className, path) && StripLocalSuffixes(params) == params
    ensures var rest := Encoding(className, params, path);
      Parsed(MangleCtor(className, params, path)) == Recovered(className, params, path, true, false) <==>
        && |Scope(className, path)| <= 9
        && !Contains(rest, "__ct__") && !Contains(rest, "__dt__")
  {
    SpecialRoundTripIff("__ct__", className, params, path);
  }

  lemma DtorRoundTripIff(className: string, params: string, path: seq<string>)
    requires IsScope(className, path) && StripLocalSuffixes(params) == params
    ensures var rest := Encoding(className, params, path);
      Parsed(MangleDtor(className, params, path)) == Recovered(className, params, path, false, true) <==>
        && |Scope(className, path)| <= 9
        && !Contains(rest, "__ct__") && !Contains(rest, "__dt__")
  {
    SpecialRoundTripIff("__dt__", className, params, path);
  }

  // ----- Names that are not recovered -----

  /** A member of this name prints like the constructor, or destructor: nothing tells them apart. */
  lemma MemberPrintsLikeCtor(className: string, params: string, path: seq<string>)
    ensures MangleMember(className, "__ct", params, path) == MangleCtor(className, params, path)
    ensures MangleMember(className, "__dt", params, path) == MangleDtor(className, params, path)
  {
    var rest := Encoding(className, params, path);
    assert "__ct" + "__" + rest == "__ct__" + rest;
    assert "__dt" + "__" + rest == "__dt__" + rest;
  }

  /** The member `f` of a class `a__5c` without parameters: its encoding reads as a second marker. */
  lemma MarkedClassIsNotRecovered()
    ensures Parsed(MangleMember("a__5c", "f", "v", [])) != Recovered("a__5c", "v", [], false, false)
  {
    CountDigit(5);
    var rest := Encoding("a__5c", "v", []);
    assert rest == "5a__5cFv";
    assert rest[4..][0] == '5' && rest[4..][1] == 'c';
    assert MarkerAt(rest, 2);
    NoSuffixInV();
    MemberRoundTripIff("a__5c", "f", "v", []);
  }

  lemma NoSuffixInV()
    ensures StripLocalSuffixes("v") == "v"
  {
  }

  /** A class with ten scope tokens: one digit cannot count them. */
  lemma TenTokensAreNotRecovered(path: seq<string>)
    requires path == ["a", "b", "c", "d", "e", "f", "g", "h", "i", "j"]
    ensures Parsed(MangleMember("j", "f", "v", path)) != Recovered("j", "v", path, false, false)
  {
    assert FullPath("j", path) == path;
    NoSuffixInV();
    MemberRoundTripIff("j", "f", "v", path);
  }
}
