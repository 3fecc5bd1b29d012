/** What is around a mangled name does not change what it says, and a length that is too long is cut. */
module MangledArtifacts {
  import opened Prelude
  import opened MangledNames
  import opened MangledRoundTrip

  // ----- Buckets and local suffixes -----

  /** A local suffix: `@instance`, or `@` and digits. */
  predicate Suffix(s: string) {
    s == "@instance" || (|s| >= 2 && s[0] == '@' && forall i :: 1 <= i < |s| ==> '0' <= s[i] <= '9')
  }

  lemma SuffixParts(suffix: string)
    requires Suffix(suffix)
    ensures suffix == "@" + suffix[1..] && '@' !in suffix[1..] && IsLocalSuffix(suffix)
  {
    if suffix == "@instance" {
      assert suffix[1..] == "instance";
    }
  }

  /** A local suffix is stripped, and then the name is looked at again. */
  lemma SuffixIsStripped(name: string, suffix: string)
    requires Suffix(suffix)
    ensures StripLocalSuffixes(name + suffix) == StripLocalSuffixes(name)
  {
    SuffixParts(suffix);
    assert (name + suffix)[|name|..] == suffix && (name + suffix)[..|name|] == name;
    assert (name + suffix)[|name| + 1..] == suffix[1..];
    LastAtIs(name + suffix, |name|);
  }

  lemma StripStep(s: string, at: nat)
    requires LastAt(s) == Some(at) && IsLocalSuffix(s[at..])
    ensures StripLocalSuffixes(s) == StripLocalSuffixes(s[..at]) && Suffix(s[at..])
  {
    DigitsOfSuffix(s[at..]);
  }

  lemma OneSuffixMore(s: string, at: nat, stripped: string, suffixes: seq<string>)
    requires at <= |s| && s[..at] == stripped + Joined(suffixes)
    ensures s == stripped + Joined(suffixes + [s[at..]])
  {
    JoinedLast(suffixes, s[at..]);
    Associative(stripped, Joined(suffixes), s[at..]);
    assert s == s[..at] + s[at..];
  }

  /** Only local suffixes are stripped: what is gone from the end consists of them. */
  lemma {:induction false} OnlySuffixesAreStripped(s: string) returns (suffixes: seq<string>)
    ensures forall i :: 0 <= i < |suffixes| ==> Suffix(suffixes[i])
    ensures s == StripLocalSuffixes(s) + Joined(suffixes)
    decreases |s|
  {
    var at := LastAt(s);
    suffixes := [];
    if at.Some? && IsLocalSuffix(s[at.value..]) {
      StripStep(s, at.value);
      var before := OnlySuffixesAreStripped(s[..at.value]);
      OneSuffixMore(s, at.value, StripLocalSuffixes(s), before);
      suffixes := before + [s[at.value..]];
    }
  }

  lemma DigitsOfSuffix(s: string)
    requires IsLocalSuffix(s)
    ensures Suffix(s)
  {
    if s != "@instance" {
      forall i | 1 <= i < |s|
        ensures IsDigit(s[i])
      {
        assert s[i] == s[1..][i - 1];
      }
    }
  }

  function Joined(parts: seq<string>): string {
    if parts == [] then "" else Joined(parts[..|parts| - 1]) + parts[|parts| - 1]
  }

  lemma JoinedLast(parts: seq<string>, last: string)
    ensures Joined(parts + [last]) == Joined(parts) + last
  {
    assert (parts + [last])[..|parts|] == parts;
  }

  lemma {:induction false} FirstAt(digits: string, rest: string)
    requires '@' !in digits
    ensures IndexOf(digits + "@" + rest, '@') == Some(|digits|)
    decreases |digits|
  {
    var s := digits + "@" + rest;
    if digits != "" {
      assert s[0] == digits[0] && s[1..] == digits[1..] + "@" + rest;
      FirstAt(digits[1..], rest);
    }
  }

  /** A bucket in front is stripped. */
  lemma BucketIsStripped(bucket: string, name: string)
    requires '@' !in bucket
    ensures StripBuckets("@" + bucket + "@" + name) == StripBuckets(name)
  {
    var s := "@" + bucket + "@" + name;
    assert s[1..] == bucket + "@" + name;
    FirstAt(bucket, name);
    assert s[1..][|bucket| + 1..] == name;
  }

  /** A name without `@` says the same behind a bucket and with a local suffix. */
  lemma ArtifactsDoNotMatter(bucket: string, name: string, suffix: string)
    requires '@' !in bucket && '@' !in name && name != "" && Suffix(suffix)
    ensures Parsed("@" + bucket + "@" + name) == Parsed(name)
    ensures Parsed(name + suffix) == Parsed(name)
    ensures Parsed("@" + bucket + "@" + name + suffix) == Parsed(name)
  {
    var behind := "@" + bucket + "@" + name;
    BucketIsStripped(bucket, name);
    BucketIsStripped(bucket, name + suffix);
    assert behind + suffix == "@" + bucket + "@" + (name + suffix);
    assert name[0] in name;
    assert StripBuckets(name) == name && StripBuckets(name + suffix) == name + suffix;
    SuffixIsStripped(name, suffix);
  }

  // ----- Characters -----

  /** The characters of the patterns, written out: those that may start a name. */
  lemma NameStartIff(c: char)
    ensures IsNameStart(c) <==>
      || c in {'A', 'B', 'C', 'D', 'E', 'F', 'G', 'H', 'I', 'J', 'K', 'L', 'M'}
      || c in {'N', 'O', 'P', 'Q', 'R', 'S', 'T', 'U', 'V', 'W', 'X', 'Y', 'Z'}
      || c in {'a', 'b', 'c', 'd', 'e', 'f', 'g', 'h', 'i', 'j', 'k', 'l', 'm'}
      || c in {'n', 'o', 'p', 'q', 'r', 's', 't', 'u', 'v', 'w', 'x', 'y', 'z', '_', '@'}
  {
  }

  lemma DigitIff(c: char)
    ensures IsDigit(c) <==> c in {'0', '1', '2', '3', '4', '5', '6', '7', '8', '9'}
    ensures IsHex(c) <==> IsDigit(c) || c in {'A', 'B', 'C', 'D', 'E', 'F', 'a', 'b', 'c', 'd', 'e', 'f'}
  {
  }

  // ----- Addresses -----

  predicate Hex(s: string) {
    forall c :: c in s ==> '0' <= c <= '9' || 'A' <= c <= 'F' || 'a' <= c <= 'f'
  }

  /** An address prefix of eight hexadecimal digits is stripped, and nothing behind it. */
  lemma AddressIsStripped(word: string, digits: string, rest: string)
    requires word in {"func_", "lbl_", "data_"} && |digits| == 8 && Hex(digits) && '@' !in rest
    ensures Cleaned(word + digits + rest) == rest
  {
    var name := word + digits + rest;
    assert name[..|word|] == word && name[|word| + 8..] == rest;
    forall i | |word| <= i < |word| + 8
      ensures IsHex(name[i])
    {
      assert name[i] == digits[i - |word|] && digits[i - |word|] in digits;
    }
    OneAddress(name, word);
    NoAt(word, digits, rest);
    NothingIsStripped(name);
  }

  lemma NoAt(word: string, digits: string, rest: string)
    requires word in {"func_", "lbl_", "data_"} && Hex(digits) && '@' !in rest
    ensures '@' !in word + digits + rest
  {
  }

  lemma NothingIsStripped(name: string)
    requires '@' !in name
    ensures Cleaned(name) == name[AddressPrefix(name)..]
  {
  }

  lemma OneAddress(name: string, word: string)
    requires word in {"func_", "lbl_", "data_"} && HasAddress(name, word)
    ensures AddressPrefix(name) == |word| + 8
  {
    assert name[0] == name[..|word|][0];
  }

  // ----- Lengths that are too long -----

  lemma {:induction false} FirstF(s: string, f: nat)
    requires f < |s| && s[f] == 'F' && 'F' !in s[..f]
    ensures IndexOf(s, 'F') == Some(f)
    decreases f
  {
    if f > 0 {
      assert s[0] == s[..f][0] && s[1..][..f - 1] == s[..f][1..];
      FirstF(s[1..], f - 1);
    }
  }

  lemma {:induction false} NoF(s: string)
    requires 'F' !in s
    ensures IndexOf(s, 'F') == None
    decreases |s|
  {
    if s != "" {
      NoF(s[1..]);
    }
  }

  /** The digits of a text, and what is behind them. */
  lemma DigitsApart(digits: string, rest: string)
    requires AllDigits(digits) && (rest != "" ==> !IsDigit(rest[0]))
    ensures DigitRun(digits + rest) == |digits|
    ensures (digits + rest)[..|digits|] == digits && (digits + rest)[|digits|..] == rest
  {
    DigitRunOf(digits, rest);
  }

  /** A token whose length overruns the text ends at the first `F`, that of the signature, unless the length
      is above 99 or nothing is in front of the `F`. */
  lemma OverrunDecides(digits: string, rest: string, f: nat)
    requires AllDigits(digits) && f < |rest| && rest[f] == 'F' && 'F' !in rest[..f] && !IsDigit(rest[0])
    requires Value(digits) > |rest|
    ensures ReadToken(digits + rest)
         == if Value(digits) > 99 || f == 0 then None else Some(Token(rest[..f], rest[f..]))
  {
    FirstF(rest, f);
    DigitsApart(digits, rest);
    ReadOverrun(digits + rest, |digits|, Value(digits), f);
    CutBehind(digits, rest, f);
  }

  lemma ReadOverrun(s: string, start: nat, length: nat, f: nat)
    requires start + f <= |s| && start + length > |s| && IndexOf(s[start..], 'F') == Some(f)
    ensures TokenAt(s, start, length)
         == if length > 99 || f == 0 then None else Some(Token(s[start..start + f], s[start + f..]))
  {
  }

  lemma CutBehind(digits: string, rest: string, n: nat)
    requires n <= |rest|
    ensures (digits + rest)[|digits|..|digits| + n] == rest[..n] && (digits + rest)[|digits| + n..] == rest[n..]
  {
  }

  /** Without an `F` it is no token. */
  lemma OverrunWithoutF(digits: string, name: string)
    requires AllDigits(digits) && (name != "" ==> !IsDigit(name[0])) && 'F' !in name && Value(digits) > |name|
    ensures ReadToken(digits + name) == None
  {
    DigitsApart(digits, name);
    NoF(name);
  }

  /** A length of zero, or none, is no token. */
  lemma NoLength(digits: string, rest: string)
    requires AllDigits(digits) && (rest != "" ==> !IsDigit(rest[0])) && Value(digits) == 0
    ensures ReadToken(digits + rest) == None
  {
    DigitsApart(digits, rest);
  }

  // ----- Markers and names that say nothing -----

  lemma {:induction false} DigitsThenNameIff(s: string)
    ensures DigitsThenName(s) <==> exists n: nat :: 1 <= n < |s| && AllDigits(s[..n]) && IsNameStart(s[n])
    decreases |s|
  {
    if |s| >= 2 && IsDigit(s[0]) {
      DigitsThenNameIff(s[1..]);
      forall n: nat | 1 <= n < |s| && AllDigits(s[..n]) && IsNameStart(s[n])
        ensures n == 1 || (AllDigits(s[1..][..n - 1]) && IsNameStart(s[1..][n - 1]))
      {
        assert n > 1 ==> s[1..][..n - 1] == s[..n][1..];
      }
      if IsNameStart(s[1]) {
        assert AllDigits(s[..1]);
      } else if DigitsThenName(s[1..]) {
        var n: nat :| 1 <= n < |s| - 1 && AllDigits(s[1..][..n]) && IsNameStart(s[1..][n]);
        assert s[..n + 1] == [s[0]] + s[1..][..n];
        assert AllDigits(s[..n + 1]) && IsNameStart(s[n + 1]);
      }
    } else {
      NoDigitInFront(s);
    }
  }

  lemma NoDigitInFront(s: string)
    requires |s| < 2 || !IsDigit(s[0])
    ensures forall n: nat :: 1 <= n < |s| ==> !AllDigits(s[..n])
  {
    assert forall n: nat :: 1 <= n < |s| ==> s[..n][0] == s[0];
  }

  /** Two underscores start an encoding exactly if `Q` and a digit follow, or digits and the start of a name. */
  lemma MarkerIff(before: string, tail: string)
    ensures MarkerAt(before + "__" + tail, |before|) <==>
      || (|tail| >= 2 && tail[0] == 'Q' && '0' <= tail[1] <= '9')
      || exists n: nat :: 1 <= n < |tail| && AllDigits(tail[..n]) && IsNameStart(tail[n])
  {
    assert (before + "__" + tail)[|before| + 2..] == tail;
    DigitsThenNameIff(tail);
  }

  lemma EncodedHasClass(body: string)
    requires LooksEncoded(body) && ParseCore(body).Some?
    ensures ParseCore(body).value.className.Some?
  {
    if body[0] == 'Q' {
      ReadTokensSize(body[1..][1..], DigitValue(body[1..][0]));
    }
  }

  /** A name is read as a member that is neither a constructor nor a destructor only if it has a class; with a
      special prefix it is always read as one or the other; and else it is free and says nothing. */
  lemma KindDecides(name: string)
    ensures var info, s := Parsed(name), Cleaned(name);
      && (info.isConstructor || info.isDestructor <==> Contains(s, "__ct__") || Contains(s, "__dt__"))
      && !(info.isConstructor && info.isDestructor)
      && (info.isConstructor || info.isDestructor ==> info.isMember)
      && (info.isMember && !info.isConstructor && !info.isDestructor ==> info.className.Some?)
      && (!info.isMember ==> info == FREE)
  {
    var s := Cleaned(name);
    var place := PlaceOf(s);
    if place.Member? && ParseCore(s[place.at..]).Some? {
      assert MarkerAt(s, place.at - 2);
      EncodedHasClass(s[place.at..]);
    }
    SpecialIff(s);
  }

  lemma SpecialIff(s: string)
    ensures PlaceOf(s).Special? <==> Contains(s, "__ct__") || Contains(s, "__dt__")
  {
    OccursIff(s, "__ct__");
    OccursIff(s, "__dt__");
  }

  lemma OccursIff(s: string, pattern: string)
    ensures LastIndexOf(s, pattern).Some? <==> Contains(s, pattern)
  {
    var last := LastIndexOf(s, pattern);
    if last.Some? {
      assert OccursAt(s, pattern, last.value);
    }
    assert forall i: nat :: OccursAt(s, pattern, i) ==> i < |s| + 1;
  }

  /** A name has another canonical name exactly if it holds no `@`, is special or holds `Fv` somewhere, and does
      not print as it is. */
  lemma TargetIff(name: string, info: MangledName)
    requires info.className.Some?
    ensures CanonicalTarget(name, info).Some? <==>
      && '@' !in name && (info.isConstructor || info.isDestructor || Contains(name, "Fv"))
      && Canonical(name, info) != name
    ensures CanonicalTarget(name, info).Some? ==> CanonicalTarget(name, info).value == Canonical(name, info)
  {
    OccursIff(name, "Fv");
  }
}
