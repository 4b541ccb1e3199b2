/** The blob-name grammar `<hash>[_<expiration>][.<extension>]`, and the object keys built on it. */
module BlobName {
  import opened Prelude
  import opened Decimal

  const HASH_LEN := 64

  datatype ParsedName = ParsedName(hash: string, expiration: Option<u64>, extension: Option<string>)

  datatype NameError = InvalidHash

  predicate IsHashChar(c: char) {
    IsDigit(c) || 'a' <= c <= 'f'
  }

  predicate IsValidHash(hash: string) {
    |hash| == HASH_LEN && forall i :: 0 <= i < |hash| ==> IsHashChar(hash[i])
  }

  /** A hash that satisfies the policy. */
  type Hash = h: string | IsValidHash(h) witness seq(HASH_LEN, i => '0')

  function Suffix(expiration: Option<u64>, extension: Option<string>): string {
    match (expiration, extension)
    case (Some(e), Some(x)) => "_" + Print(e) + "." + x
    case (Some(e), None) => "_" + Print(e)
    case (None, Some(x)) => "." + x
    case (None, None) => ""
  }

  function NameOf(hash: Hash, expiration: Option<u64>, extension: Option<string>): string {
    hash + Suffix(expiration, extension)
  }

  function Name(hash: string, expiration: Option<u64>, extension: Option<string>): Result<string, NameError> {
    if IsValidHash(hash) then Ok(NameOf(hash, expiration, extension)) else Err(InvalidHash)
  }

  function SplitOnce(s: string, c: char): Option<(string, string)> {
    if s == "" then None
    else if s[0] == c then Some(("", s[1..]))
    else match SplitOnce(s[1..], c)
         case None => None
         case Some((before, after)) => Some(([s[0]] + before, after))
  }

  /** The optional expiration and extension in what follows the hash. */
  function ParseSuffix(rest: string): Option<(Option<u64>, Option<string>)> {
    if rest == "" then Some((None, None))
    else if rest[0] == '_' then
      var (digits, extension) :=
        match SplitOnce(rest[1..], '.')
        case None => (rest[1..], None)
        case Some((digits, x)) => (digits, Some(x));
      match ParseDigits(digits)
      case None => None
      case Some(e) => Some((Some(e), extension))
    else if rest[0] == '.' then Some((None, Some(rest[1..])))
    else None
  }

  function Parse(name: string): Option<ParsedName> {
    if |name| < HASH_LEN || !IsValidHash(name[..HASH_LEN]) then None
    else
      match ParseSuffix(name[HASH_LEN..])
      case None => None
      case Some((expiration, extension)) => Some(ParsedName(name[..HASH_LEN], expiration, extension))
  }

  // ----- what the grammar says -----

  function Extended(s: string, extension: Option<string>): string {
    match extension case None => s case Some(x) => s + "." + x
  }

  /** `name` is a spelling of `p`: the hash, then possibly `_` and digits that denote the expiration,
      then possibly a dot and the extension. */
  ghost predicate Spells(name: string, p: ParsedName) {
    && |p.hash| == 64 && (forall i :: 0 <= i < 64 ==> '0' <= p.hash[i] <= '9' || 'a' <= p.hash[i] <= 'f')
    && (p.expiration.None? ==> name == Extended(p.hash, p.extension))
    && (p.expiration.Some? ==>
          exists digits :: ParseDigits(digits) == p.expiration && name == Extended(p.hash + "_" + digits, p.extension))
  }

  lemma {:induction false} SplitOnceMeaning(s: string, c: char)
    ensures match SplitOnce(s, c)
            case None => c !in s
            case Some((before, after)) => c !in before && s == before + [c] + after
  {
    if s != "" && s[0] != c {
      SplitOnceMeaning(s[1..], c);
    }
  }

  lemma {:induction false} SplitOnceAt(before: string, c: char, after: string)
    requires c !in before
    ensures SplitOnce(before + [c] + after, c) == Some((before, after)) && SplitOnce(before, c) == None
  {
    var s := before + [c] + after;
    if before == "" {
      assert s == [c] + after;
    } else {
      assert s[1..] == before[1..] + [c] + after;
      SplitOnceAt(before[1..], c, after);
      assert [before[0]] + before[1..] == before;
    }
  }

  lemma ParseSuffixExpires(digits: string, extension: Option<string>)
    requires ParseDigits(digits).Some?
    ensures ParseSuffix(Extended("_" + digits, extension)) == Some((ParseDigits(digits), extension))
  {
    var rest := Extended("_" + digits, extension);
    assert '.' !in digits;
    SplitOnceAt(digits, '.', if extension.Some? then extension.value else "");
    if extension.Some? {
      assert rest[1..] == digits + ['.'] + extension.value;
    } else {
      assert rest[1..] == digits;
    }
  }

  lemma ParseSuffixPlain(extension: Option<string>)
    ensures ParseSuffix(Extended("", extension)) == Some((None, extension))
  {
  }

  lemma AfterHash(hash: Hash, rest: string)
    ensures (hash + rest)[..HASH_LEN] == hash && (hash + rest)[HASH_LEN..] == rest
  {
  }

  lemma SpellingParses(name: string, p: ParsedName)
    requires Spells(name, p)
    ensures Parse(name) == Some(p)
  {
    if p.expiration.None? {
      var rest := Extended("", p.extension);
      assert name == p.hash + rest;
      AfterHash(p.hash, rest);
      ParseSuffixPlain(p.extension);
    } else {
      var digits :| ParseDigits(digits) == p.expiration && name == Extended(p.hash + "_" + digits, p.extension);
      var rest := Extended("_" + digits, p.extension);
      assert name == p.hash + rest;
      AfterHash(p.hash, rest);
      ParseSuffixExpires(digits, p.extension);
    }
  }

  /** The digits of the expiration in a name that has one. */
  function ExpirationDigits(name: string): string
    requires |name| > HASH_LEN
  {
    match SplitOnce(name[HASH_LEN + 1..], '.')
    case None => name[HASH_LEN + 1..]
    case Some((digits, _)) => digits
  }

  lemma ParsedSpelling(name: string)
    requires Parse(name).Some?
    ensures Spells(name, Parse(name).value)
    ensures Parse(name).value.expiration.Some? ==>
              var digits := ExpirationDigits(name);
              && ParseDigits(digits) == Parse(name).value.expiration
              && name == Extended(Parse(name).value.hash + "_" + digits, Parse(name).value.extension)
  {
    var hash, rest := name[..HASH_LEN], name[HASH_LEN..];
    assert name == hash + rest;
    if rest != "" && rest[0] == '_' {
      assert rest[1..] == name[HASH_LEN + 1..];
      SplitOnceMeaning(rest[1..], '.');
      assert name == hash + "_" + rest[1..];
      assert name == Extended(hash + "_" + ExpirationDigits(name), Parse(name).value.extension);
    } else if rest != "" {
      assert rest == "." + rest[1..];
    }
  }

  /** The parser accepts exactly the spellings of the grammar, with the parts they spell. */
  lemma ParseMeetsGrammar(name: string, p: ParsedName)
    ensures Parse(name) == Some(p) <==> Spells(name, p)
  {
    if Spells(name, p) {
      SpellingParses(name, p);
    }
    if Parse(name) == Some(p) {
      ParsedSpelling(name);
    }
  }

  /** What is printed parses back, whatever the extension holds: dots, nothing, anything. */
  lemma NameRoundTrip(hash: Hash, expiration: Option<u64>, extension: Option<string>)
    ensures var built := Name(hash, expiration, extension);
            built == Ok(NameOf(hash, expiration, extension))
              && Parse(built.value) == Some(ParsedName(hash, expiration, extension))
  {
    var name, p := NameOf(hash, expiration, extension), ParsedName(hash, expiration, extension);
    if expiration.Some? {
      ParsePrint(expiration.value);
      assert name == Extended(hash + "_" + Print(expiration.value), extension);
    } else {
      assert name == Extended(hash, extension);
    }
    SpellingParses(name, p);
  }

  /** Two blobs share a name only if they are the same blob. */
  lemma NameInjective(h1: Hash, e1: Option<u64>, x1: Option<string>, h2: Hash, e2: Option<u64>, x2: Option<string>)
    requires NameOf(h1, e1, x1) == NameOf(h2, e2, x2)
    ensures h1 == h2 && e1 == e2 && x1 == x2
  {
    NameRoundTrip(h1, e1, x1);
    NameRoundTrip(h2, e2, x2);
  }

  /** Printing a parsed name restores it exactly when its expiration has no superfluous zeros. */
  lemma PrintUndoesParse(name: string)
    requires Parse(name).Some?
    ensures var p := Parse(name).value;
            NameOf(p.hash, p.expiration, p.extension) == name <==>
            (p.expiration.Some? ==> Canonical(ExpirationDigits(name)))
  {
    var p := Parse(name).value;
    ParsedSpelling(name);
    if p.expiration.Some? {
      PrintUndoesValue(ExpirationDigits(name));
      SpellingWith(p.hash, p.expiration.value, p.extension, ExpirationDigits(name));
    }
  }

  lemma SpellingWith(hash: Hash, expiration: u64, extension: Option<string>, digits: string)
    ensures NameOf(hash, Some(expiration), extension) == Extended(hash + "_" + digits, extension)
            <==> Print(expiration) == digits
  {
    hide Print;
    var printed := Print(expiration);
    var tail := if extension.Some? then "." + extension.value else "";
    assert NameOf(hash, Some(expiration), extension) == (hash + "_") + printed + tail;
    assert Extended(hash + "_" + digits, extension) == (hash + "_") + digits + tail;
    if (hash + "_") + printed + tail == (hash + "_") + digits + tail {
      CancelAround(hash + "_", printed, digits, tail);
    }
  }

  lemma CancelAround(before: string, a: string, b: string, after: string)
    requires before + a + after == before + b + after
    ensures a == b
  {
    assert |before + a + after| == |before| + |a| + |after|;
    assert (before + a + after)[|before|..|before| + |a|] == a;
    assert (before + b + after)[|before|..|before| + |b|] == b;
  }

  // ----- quarantine -----

  predicate QuarantineNameMatches(hash: string, name: string) {
    hash <= name && (|name| == |hash| || name[|hash|] == '_' || name[|hash|] == '.')
  }

  /** Every name of a blob matches the blob's own hash, and no other hash. */
  lemma QuarantineMatchesOwnHash(hash: Hash, other: Hash, expiration: Option<u64>, extension: Option<string>)
    ensures QuarantineNameMatches(other, NameOf(hash, expiration, extension)) <==> other == hash
  {
    var name := NameOf(hash, expiration, extension);
    assert name[..HASH_LEN] == hash;
    if other <= name {
      assert name[..HASH_LEN] == other;
    }
  }

  // ----- object keys -----

  function HashPrefix(hash: Hash): string {
    hash[..1] + "/" + hash[1..2] + "/" + hash
  }

  function ObjectKey(hash: Hash, extension: Option<string>, expiration: Option<u64>): string {
    hash[..1] + "/" + hash[1..2] + "/" + NameOf(hash, expiration, extension)
  }

  function Split(s: string, c: char): seq<string>
    decreases |s|
  {
    match SplitOnce(s, c)
    case None => [s]
    case Some((before, after)) => SplitOnceShrinks(s, c); [before] + Split(after, c)
  }

  lemma SplitOnceShrinks(s: string, c: char)
    ensures SplitOnce(s, c).Some? ==> |SplitOnce(s, c).value.1| < |s|
  {
    SplitOnceMeaning(s, c);
  }

  function ParseObjectKey(key: string): Option<ParsedName> {
    var path := Split(key, '/');
    if |path| != 3 then None
    else
      match Parse(path[2])
      case None => None
      case Some(p) => if path[0] != p.hash[..1] || path[1] != p.hash[1..2] then None else Some(p)
  }

  lemma SplitTwo(a: string, b: string, rest: string)
    requires '/' !in a && '/' !in b
    ensures Split(a + "/" + b + "/" + rest, '/') == [a, b] + Split(rest, '/')
  {
    assert a + "/" + b + "/" + rest == a + ['/'] + (b + ['/'] + rest);
    SplitOnceAt(a, '/', b + ['/'] + rest);
    SplitOnceAt(b, '/', rest);
  }

  lemma SplitSingle(s: string)
    ensures |Split(s, '/')| >= 1
    ensures |Split(s, '/')| == 1 <==> '/' !in s
    ensures '/' !in s ==> Split(s, '/') == [s]
  {
    SplitOnceMeaning(s, '/');
    if SplitOnce(s, '/').Some? {
      SplitOnceShrinks(s, '/');
      var after := SplitOnce(s, '/').value.1;
      SplitSingleNonEmpty(after);
    }
  }

  lemma SplitSingleNonEmpty(s: string)
    ensures |Split(s, '/')| >= 1
  {
    SplitOnceShrinks(s, '/');
  }

  /** The key is the two fan-out characters and a name without a slash, separated by slashes. */
  ghost predicate SpellsKey(key: string, p: ParsedName) {
    && |key| > 4 && key[1] == '/' && key[3] == '/' && '/' !in key[4..]
    && Spells(key[4..], p) && key[0] == key[4] && key[2] == key[5]
  }

  lemma SplitThree(s: string)
    requires |Split(s, '/')| == 3
    ensures var path := Split(s, '/');
            s == path[0] + "/" + path[1] + "/" + path[2] && forall i :: 0 <= i < 3 ==> '/' !in path[i]
  {
    SplitOnceMeaning(s, '/');
    SplitOnceShrinks(s, '/');
    if SplitOnce(s, '/').Some? {
      var (before, after) := SplitOnce(s, '/').value;
      assert Split(s, '/') == [before] + Split(after, '/');
      SplitOnceMeaning(after, '/');
      SplitOnceShrinks(after, '/');
      if SplitOnce(after, '/').Some? {
        var (middle, rest) := SplitOnce(after, '/').value;
        assert Split(after, '/') == [middle] + Split(rest, '/');
        SplitSingle(rest);
        assert s == before + "/" + middle + "/" + rest;
      }
    }
  }

  lemma SpelledStart(name: string, p: ParsedName)
    requires Spells(name, p)
    ensures |name| >= HASH_LEN && name[..HASH_LEN] == p.hash && IsValidHash(p.hash)
  {
    SpellingParses(name, p);
  }

  /** The object-key parser accepts exactly the spellings of a key, with the parts they spell. */
  lemma ParseObjectKeyMeetsGrammar(key: string, p: ParsedName)
    ensures ParseObjectKey(key) == Some(p) <==> SpellsKey(key, p)
  {
    hide Spells, Parse, Split;
    if ParseObjectKey(key) == Some(p) {
      var path := Split(key, '/');
      SplitThree(key);
      ParseMeetsGrammar(path[2], p);
      SpelledStart(path[2], p);
      assert |path[0]| == 1 && |path[1]| == 1 && path[2] == key[4..];
      assert path[2][0] == p.hash[0] && path[2][1] == p.hash[1];
      assert key[0] == path[0][0] && key[2] == path[1][0];
    }
    if SpellsKey(key, p) {
      var a, b, name := key[..1], key[2..3], key[4..];
      assert key == a + "/" + b + "/" + name;
      SpelledStart(name, p);
      ParseMeetsGrammar(name, p);
      HashesHaveNoSlash(p.hash);
      assert key[0] == p.hash[0] && key[2] == p.hash[1];
      SplitTwo(a, b, name);
      SplitSingle(name);
    }
  }

  lemma HashesHaveNoSlash(hash: Hash)
    ensures '/' !in hash
  {
  }

  lemma NoSlashInName(hash: Hash, expiration: Option<u64>, extension: Option<string>)
    ensures '/' in NameOf(hash, expiration, extension) <==> extension.Some? && '/' in extension.value
  {
    assert '/' !in hash;
    if expiration.Some? {
      assert '/' !in Print(expiration.value);
    }
  }

  /** An object key parses back to the blob it was built for, exactly when the extension has no slash. */
  lemma ObjectKeyRoundTrip(hash: Hash, extension: Option<string>, expiration: Option<u64>)
    ensures ParseObjectKey(ObjectKey(hash, extension, expiration)) ==
            if extension.Some? && '/' in extension.value then None else Some(ParsedName(hash, expiration, extension))
  {
    var name := NameOf(hash, expiration, extension);
    SplitTwo(hash[..1], hash[1..2], name);
    SplitSingle(name);
    NoSlashInName(hash, expiration, extension);
    NameRoundTrip(hash, expiration, extension);
  }

  /** Sweeping the keys under a hash's prefix reaches all of that blob's keys and no other blob's. */
  lemma HashPrefixSelectsOwnKeys(hash: Hash, other: Hash, extension: Option<string>, expiration: Option<u64>)
    ensures HashPrefix(other) <= ObjectKey(hash, extension, expiration) <==> other == hash
  {
    KeyHash(hash, Suffix(expiration, extension));
    KeyHash(other, "");
    var key := ObjectKey(hash, extension, expiration);
    assert key == HashPrefix(hash) + Suffix(expiration, extension);
    assert HashPrefix(other) == HashPrefix(other) + "";
    if HashPrefix(other) <= key {
      assert key[..4 + HASH_LEN] == HashPrefix(other);
    }
  }

  lemma KeyHash(hash: Hash, rest: string)
    ensures |HashPrefix(hash)| == 4 + HASH_LEN && (HashPrefix(hash) + rest)[..4 + HASH_LEN][4..] == hash
  {
  }

  /** Distinct blobs have distinct object keys, even those that do not parse back. */
  lemma ObjectKeyInjective(h1: Hash, x1: Option<string>, e1: Option<u64>, h2: Hash, x2: Option<string>, e2: Option<u64>)
    requires ObjectKey(h1, x1, e1) == ObjectKey(h2, x2, e2)
    ensures h1 == h2 && e1 == e2 && x1 == x2
  {
    assert ObjectKey(h1, x1, e1)[4..] == NameOf(h1, e1, x1);
    assert ObjectKey(h2, x2, e2)[4..] == NameOf(h2, e2, x2);
    NameInjective(h1, e1, x1, h2, e2, x2);
  }
}
