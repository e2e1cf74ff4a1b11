/**
 The grammar of relative storage keys: which keys are accepted, how a key is generated, and how it is
 resolved to a path under the storage root.  Paths are sequences of segments; symbolic links are not
 modelled.
 */
module StorageKeys {
  import opened Wrappers

  const NEWLINE: char := '\n'

  // --- Text helpers -----------------------------------------------------------------------

  /** Python's `s.split("/")`: never empty. */
  function Split(s: string): (parts: seq<string>)
    ensures parts != []
  {
    if s == "" then [""]
    else if s[0] == '/' then [""] + Split(s[1..])
    else var rest := Split(s[1..]); [[s[0]] + rest[0]] + rest[1..]
  }

  function Join(parts: seq<string>): string
    requires parts != []
  {
    if |parts| == 1 then parts[0] else parts[0] + "/" + Join(parts[1..])
  }

  lemma {:induction false} JoinSplit(s: string)
    ensures Join(Split(s)) == s
  {
    if s == "" {
    } else {
      JoinSplit(s[1..]);
      var rest := Split(s[1..]);
      if s[0] == '/' {
        assert ([""] + rest)[1..] == rest;
        assert s == "/" + s[1..];
      } else {
        assert s == [s[0]] + s[1..];
      }
    }
  }

  lemma {:induction false} SplitConcat(head: string, rest: string)
    requires '/' !in head
    ensures Split(head + "/" + rest) == [head] + Split(rest)
    ensures Split(head) == [head]
  {
    var s := head + "/" + rest;
    if head == "" {
      assert s[1..] == rest;
    } else {
      SplitConcat(head[1..], rest);
      assert s[1..] == head[1..] + "/" + rest;
      assert ([head[1..]] + Split(rest))[1..] == Split(rest);
      assert [head[0]] + head[1..] == head;
    }
  }

  /** Segments without separators survive joining and splitting. */
  lemma {:induction false} SplitJoin(parts: seq<string>)
    requires parts != [] && forall p :: p in parts ==> '/' !in p
    ensures Split(Join(parts)) == parts
  {
    if |parts| == 1 {
      SplitConcat(parts[0], "");
    } else {
      SplitJoin(parts[1..]);
      SplitConcat(parts[0], Join(parts[1..]));
    }
  }

  lemma {:induction false} JoinTail(parts: seq<string>, s: string, tail: string)
    ensures Join(parts + [s + tail]) == Join(parts + [s]) + tail
  {
    if parts == [] {
    } else {
      JoinTail(parts[1..], s, tail);
      assert (parts + [s + tail])[1..] == parts[1..] + [s + tail];
      assert (parts + [s])[1..] == parts[1..] + [s];
      assert Join(parts + [s + tail]) == parts[0] + "/" + (Join(parts[1..] + [s]) + tail);
    }
  }

  function Digit(d: nat): char
    requires d < 10
  {
    '0' + d as char
  }

  predicate IsDigits(s: string) { forall i :: 0 <= i < |s| ==> '0' <= s[i] <= '9' }

  /** The decimal numeral of `n`, as an f-string prints it. */
  function Decimal(n: nat): (s: string)
    ensures s != "" && IsDigits(s)
  {
    if n < 10 then [Digit(n)] else Decimal(n / 10) + [Digit(n % 10)]
  }

  function ParseDecimal(s: string): nat
    requires IsDigits(s)
  {
    if s == "" then 0
    else
      10 * ParseDecimal(s[..|s| - 1]) + (s[|s| - 1] - '0') as nat
  }

  lemma {:induction false} DecimalRoundTrip(n: nat)
    ensures ParseDecimal(Decimal(n)) == n
  {
    if n < 10 {
      assert Decimal(n)[..0] == "";
    } else {
      DecimalRoundTrip(n / 10);
      assert Decimal(n)[..|Decimal(n)| - 1] == Decimal(n / 10);
    }
  }

  predicate IsAlnum(c: char) { 'A' <= c <= 'Z' || 'a' <= c <= 'z' || '0' <= c <= '9' }

  function ToLower(c: char): (l: char)
    ensures l as int == if 65 <= c as int <= 90 then c as int + 32 else c as int
    ensures IsAlnum(c) ==> IsAlnum(l)
  {
    if 'A' <= c <= 'Z' then c - 'A' + 'a' else c
  }

  function Lower(s: string): (l: string)
    ensures |l| == |s| && forall i :: 0 <= i < |s| ==> l[i] == ToLower(s[i])
  {
    seq(|s|, i requires 0 <= i < |s| => ToLower(s[i]))
  }

  // --- validate_key -----------------------------------------------------------------------

  predicate IsSafeChar(c: char) { IsAlnum(c) || c == '.' || c == '_' || c == '-' }

  predicate AllSafe(s: string) { s != "" && forall c :: c in s ==> IsSafeChar(c) || c == '/' }

  /** `re.match` of the charset pattern: its closing `$` also matches before one final newline. */
  predicate MatchesCharset(s: string) {
    AllSafe(s) || (s != "" && s[|s| - 1] == NEWLINE && AllSafe(s[..|s| - 1]))
  }

  predicate IsTraversal(part: string) { part == "" || part == "." || part == ".." }

  predicate HasDriveLetter(s: string) {
    |s| >= 2 && ('A' <= s[0] <= 'Z' || 'a' <= s[0] <= 'z') && s[1] == ':'
  }

  /** Returns the key unchanged or refuses it: nothing is cleaned up. */
  function ValidateKey(key: string): Result<string, string> {
    if key == "" then Failure("storage key must be a non-empty string")
    else if '\\' in key then Failure("storage key must not contain backslashes")
    else if !MatchesCharset(key) then Failure("storage key contains illegal characters")
    else if key[0] == '/' then Failure("storage key must be relative")
    else if exists part :: part in Split(key) && IsTraversal(part) then
      Failure("storage key must not contain empty or traversal segments")
    else if HasDriveLetter(key) then Failure("storage key must not contain a drive letter")
    else Success(key)
  }

  predicate IsSafeKey(key: string) { ValidateKey(key).Success? }

  // --- _resolve ---------------------------------------------------------------------------

  type Path = seq<string>

  /** Walks the segments of a relative path from `base`, as path resolution does. */
  function Walk(base: Path, parts: seq<string>): Path
    decreases |parts|
  {
    if parts == [] then base
    else if parts[0] == "" || parts[0] == "." then Walk(base, parts[1..])
    else if parts[0] == ".." then Walk(if base == [] then base else base[..|base| - 1], parts[1..])
    else Walk(base + [parts[0]], parts[1..])
  }

  /** `(root / key).resolve()`: an absolute key discards the root. */
  function Resolve(root: Path, key: string): Path {
    Walk(if key != "" && key[0] == '/' then [] else root, Split(key))
  }

  /** The second check of `_resolve`: the candidate is the root or lies below it. */
  predicate UnderRoot(root: Path, candidate: Path) { root <= candidate }

  lemma {:induction false} WalkGrowth(base: Path, parts: seq<string>)
    ensures |Walk(base, parts)| <= |base| + |parts|
    ensures |Walk(base, parts)| == |base| + |parts| <==> forall p :: p in parts ==> !IsTraversal(p)
    ensures |Walk(base, parts)| == |base| + |parts| ==> Walk(base, parts) == base + parts
    decreases |parts|
  {
    if parts == [] {
      assert base + parts == base;
    } else {
      assert forall p :: p in parts <==> p == parts[0] || p in parts[1..];
      assert parts[0] in parts;
      if parts[0] == "" || parts[0] == "." {
        assert IsTraversal(parts[0]);
        WalkGrowth(base, parts[1..]);
      } else if parts[0] == ".." {
        assert IsTraversal(parts[0]);
        WalkGrowth(if base == [] then base else base[..|base| - 1], parts[1..]);
      } else {
        WalkGrowth(base + [parts[0]], parts[1..]);
        assert base + parts == base + [parts[0]] + parts[1..];
      }
    }
  }

  /** The segment rule is exactly what makes resolution literal: a relative key resolves to the root
      followed by its own segments if and only if it has no empty or traversal segment. */
  lemma {:induction false} SegmentRuleIsExact(root: Path, key: string)
    requires key != "" && key[0] != '/'
    ensures Resolve(root, key) == root + Split(key) <==> forall p :: p in Split(key) ==> !IsTraversal(p)
  {
    WalkGrowth(root, Split(key));
  }

  /** Letters and digits, dot, underscore, hyphen and slash, at least one of them. */
  ghost predicate Spelled(s: string) {
    && |s| >= 1
    && forall i :: 0 <= i < |s| ==>
         || 48 <= s[i] as int <= 57 || 65 <= s[i] as int <= 90 || 97 <= s[i] as int <= 122
         || s[i] in ['.', '_', '-', '/']
  }

  lemma {:induction false} CharsetIsSpelled(s: string)
    ensures MatchesCharset(s) <==> Spelled(s) || (|s| >= 2 && s[|s| - 1] == '\n' && Spelled(s[..|s| - 1]))
  {
    SafeIsSpelled(s);
    if s != "" {
      SafeIsSpelled(s[..|s| - 1]);
    }
  }

  lemma {:induction false} SafeIsSpelled(s: string)
    ensures AllSafe(s) <==> Spelled(s)
  {
    if AllSafe(s) {
      forall i | 0 <= i < |s| ensures IsSafeChar(s[i]) || s[i] == '/' {
        assert s[i] in s;
      }
    }
  }

  /** What `validate_key` accepts: exactly the relative keys over the charset that resolve literally, with at
      most one newline at the end.  The backslash and drive-letter rules refuse nothing that the charset lets
      through. */
  lemma {:induction false} AcceptedIffLiteral(root: Path, key: string)
    ensures IsSafeKey(key)
            <==> && (Spelled(key) || (|key| >= 2 && key[|key| - 1] == '\n' && Spelled(key[..|key| - 1])))
                 && key[0] != '/' && Resolve(root, key) == root + Split(key)
  {
    CharsetIsSpelled(key);
    if MatchesCharset(key) {
      CharsetExcludesBackslash(key);
      if |key| >= 2 {
        assert key[1] != ':' by {
          if !AllSafe(key) { assert key == key[..|key| - 1] + [NEWLINE]; }
          assert key[1] in key;
        }
      }
      if key[0] != '/' {
        SegmentRuleIsExact(root, key);
      }
    }
  }

  /** Accepted keys stay strictly below the root, so the second check of `_resolve` never refuses one,
      and two accepted keys never name the same file. */
  lemma {:induction false} AcceptedKeysResolveInjectively(root: Path, k1: string, k2: string)
    requires IsSafeKey(k1) && IsSafeKey(k2)
    ensures UnderRoot(root, Resolve(root, k1)) && Resolve(root, k1) != root
    ensures Resolve(root, k1) == Resolve(root, k2) ==> k1 == k2
  {
    SegmentRuleIsExact(root, k1);
    SegmentRuleIsExact(root, k2);
    JoinSplit(k1);
    JoinSplit(k2);
    if Resolve(root, k1) == Resolve(root, k2) {
      assert Split(k1) == (root + Split(k1))[|root|..] == (root + Split(k2))[|root|..] == Split(k2);
    }
  }

  // --- build_key --------------------------------------------------------------------------

  const TOKEN_LENGTH: nat := 32

  /** What `secrets.token_hex(16)` returns. */
  predicate IsToken(t: string) {
    |t| == TOKEN_LENGTH && forall c :: c in t ==> '0' <= c <= '9' || 'a' <= c <= 'f'
  }

  predicate IsPlainExtension(s: string) {
    2 <= |s| <= 17 && s[0] == '.' && forall i :: 1 <= i < |s| ==> IsAlnum(s[i])
  }

  /** `re.match` of the suffix pattern, whose `$` also matches before one final newline. */
  predicate MatchesSuffix(s: string) {
    IsPlainExtension(s) || (s != "" && s[|s| - 1] == NEWLINE && IsPlainExtension(s[..|s| - 1]))
  }

  function Dotted(suffix: string): string {
    if suffix != "" && suffix[0] == '.' then suffix else "." + suffix
  }

  function StoredSuffix(suffix: string): string {
    if suffix == "" then "" else Lower(Dotted(suffix))
  }

  /** `build_key`, with the random token as a parameter. */
  function BuildKey(tenant: int, task: int, suffix: string, token: string): Result<string, string> {
    if tenant <= 0 then Failure("tenant_id must be a positive integer")
    else if task <= 0 then Failure("task_id must be a positive integer")
    else if suffix != "" && !MatchesSuffix(Dotted(suffix)) then Failure("illegal suffix passed to build_key")
    else Success(Join(Directory(tenant, task) + [token + StoredSuffix(suffix)]))
  }

  function Directory(tenant: nat, task: nat): seq<string> {
    ["tenants", Decimal(tenant), "tasks", Decimal(task)]
  }

  datatype ParsedKey = ParsedKey(tenant: nat, task: nat, token: string, suffix: string)

  /** Reads a generated key back. */
  function ParseKey(key: string): Option<ParsedKey> {
    var p := Split(key);
    if |p| == 5 && p[0] == "tenants" && p[2] == "tasks" && IsDigits(p[1]) && IsDigits(p[3]) && |p[4]| >= TOKEN_LENGTH
    then Some(ParsedKey(ParseDecimal(p[1]), ParseDecimal(p[3]), p[4][..TOKEN_LENGTH], p[4][TOKEN_LENGTH..]))
    else None
  }

  lemma {:induction false} SuffixShape(suffix: string) returns (core: string)
    requires suffix == "" || MatchesSuffix(Dotted(suffix))
    ensures StoredSuffix(suffix) == core || StoredSuffix(suffix) == core + [NEWLINE]
    ensures forall c :: c in core ==> IsSafeChar(c)
  {
    var l := StoredSuffix(suffix);
    if suffix == "" || IsPlainExtension(Dotted(suffix)) {
      core := l;
    } else {
      core := l[..|l| - 1];
      assert l == core + [NEWLINE];
      assert forall i :: 0 <= i < |core| ==> Dotted(suffix)[..|l| - 1][i] == Dotted(suffix)[i];
    }
  }

  lemma {:induction false} JoinOfSafeParts(parts: seq<string>)
    requires parts != [] && forall p, c :: p in parts && c in p ==> IsSafeChar(c)
    ensures forall c :: c in Join(parts) ==> IsSafeChar(c) || c == '/'
  {
    if |parts| == 1 {
    } else {
      JoinOfSafeParts(parts[1..]);
    }
  }

  lemma {:induction false} GeneratedCharset(tenant: nat, task: nat, suffix: string, token: string)
    requires IsToken(token) && (suffix == "" || MatchesSuffix(Dotted(suffix)))
    ensures MatchesCharset(Join(Directory(tenant, task) + [token + StoredSuffix(suffix)]))
    ensures '/' !in token + StoredSuffix(suffix)
  {
    hide Decimal, StoredSuffix, MatchesSuffix;
    var core := SuffixShape(suffix);
    var dir := Directory(tenant, task);
    var plain := Join(dir + [token + core]);
    JoinOfSafeParts(dir + [token + core]);
    assert AllSafe(plain);
    if StoredSuffix(suffix) != core {
      JoinTail(dir, token + core, [NEWLINE]);
      assert token + StoredSuffix(suffix) == token + core + [NEWLINE];
      assert (plain + [NEWLINE])[..|plain|] == plain;
    }
  }

  lemma {:induction false} GeneratedKeyAccepted(tenant: nat, task: nat, suffix: string, token: string)
    requires IsToken(token) && (suffix == "" || MatchesSuffix(Dotted(suffix)))
    ensures var parts := Directory(tenant, task) + [token + StoredSuffix(suffix)];
            Split(Join(parts)) == parts && IsSafeKey(Join(parts))
  {
    var dir := Directory(tenant, task);
    var parts := dir + [token + StoredSuffix(suffix)];
    hide Decimal, StoredSuffix, MatchesSuffix, Split;
    GeneratedCharset(tenant, task, suffix, token);
    SplitJoin(parts);
    var rest := Join(parts[1..]);
    assert Join(parts) == "tenants" + "/" + rest;
    assert Join(parts)[0] == 't' && Join(parts)[1] == 'e';
    forall part | part in parts ensures !IsTraversal(part) {
      var i :| 0 <= i < |parts| && parts[i] == part;
      assert |part| > 2 || (IsDigits(part) && '0' <= part[0] <= '9');
    }
    CharsetExcludesBackslash(Join(parts));
  }

  lemma {:induction false} CharsetExcludesBackslash(s: string)
    requires MatchesCharset(s)
    ensures '\\' !in s
  {
    if !AllSafe(s) {
      assert s == s[..|s| - 1] + [NEWLINE];
    }
  }

  /** `stored` is the extension as given, with a dot before it if it had none, in lower case; nothing for none. */
  ghost predicate LoweredExtension(suffix: string, stored: string) {
    if suffix == "" then stored == ""
    else
      var shift := if suffix[0] == '.' then 0 else 1;
      && |stored| == |suffix| + shift && stored[0] == '.'
      && forall i :: 0 <= i < |suffix| ==>
           stored[i + shift] as int
           == if 65 <= suffix[i] as int <= 90 then suffix[i] as int + 32 else suffix[i] as int
  }

  lemma {:induction false} PartsParseBack(key: string, tenant: nat, task: nat, token: string, stored: string)
    requires |token| == TOKEN_LENGTH
    requires Split(key) == ["tenants", Decimal(tenant), "tasks", Decimal(task), token + stored]
    ensures ParseKey(key) == Some(ParsedKey(tenant, task, token, stored))
  {
    hide Split, Decimal, ParseDecimal;
    DecimalRoundTrip(tenant);
    DecimalRoundTrip(task);
    assert (token + stored)[..TOKEN_LENGTH] == token && (token + stored)[TOKEN_LENGTH..] == stored;
  }

  /** Every generated key is accepted by `validate_key`, has the parts spelled out here, and parses back to what
      it was built from. */
  lemma {:induction false} GeneratedKeyRoundTrip(tenant: int, task: int, suffix: string, token: string)
    requires IsToken(token) && BuildKey(tenant, task, suffix, token).Success?
    ensures var key := BuildKey(tenant, task, suffix, token).value;
            && IsSafeKey(key)
            && Split(key) == ["tenants", Decimal(tenant), "tasks", Decimal(task), token + StoredSuffix(suffix)]
            && ParseKey(key) == Some(ParsedKey(tenant, task, token, StoredSuffix(suffix)))
            && LoweredExtension(suffix, StoredSuffix(suffix))
  {
    assert LoweredExtension(suffix, StoredSuffix(suffix));
    hide LoweredExtension, Split, Join, IsSafeKey, StoredSuffix, Decimal, ParseDecimal, ParseKey;
    GeneratedKeyAccepted(tenant, task, suffix, token);
    assert Directory(tenant, task) + [token + StoredSuffix(suffix)]
        == ["tenants", Decimal(tenant), "tasks", Decimal(task), token + StoredSuffix(suffix)];
    PartsParseBack(BuildKey(tenant, task, suffix, token).value, tenant, task, token, StoredSuffix(suffix));
  }

  /** A key is refused exactly for a bad tenant, a bad task, or an extension that is not a dot, optional on
      input, and one to sixteen letters or digits, with at most one newline behind them. */
  lemma {:induction false} KeyIsBuiltIff(tenant: int, task: int, suffix: string, token: string)
    ensures BuildKey(tenant, task, suffix, token).Success? <==>
              tenant > 0 && task > 0 && (suffix == "" || exists ext: string :: IsExtensionOf(suffix, ext))
  {
    if suffix != "" {
      var d := Dotted(suffix);
      if IsPlainExtension(d) {
        assert d == "." + d[1..];
        assert IsExtensionOf(suffix, d[1..]);
      } else if MatchesSuffix(d) {
        var ext := d[1..|d| - 1];
        assert d == "." + ext + [NEWLINE];
        assert forall i :: 0 <= i < |ext| ==> ext[i] == d[..|d| - 1][i + 1];
        assert IsExtensionOf(suffix, ext);
      }
      if ext: string :| IsExtensionOf(suffix, ext) {
        assert ("." + ext + [NEWLINE])[..|ext| + 1] == "." + ext;
      }
    }
  }

  predicate IsExtensionOf(suffix: string, ext: string) {
    && 1 <= |ext| <= 16 && (forall i :: 0 <= i < |ext| ==> IsAlnum(ext[i]))
    && (suffix == ext || suffix == "." + ext || suffix == ext + [NEWLINE] || suffix == "." + ext + [NEWLINE])
  }

  /** Keys of different tenants or tasks, or with different tokens, never collide. */
  lemma {:induction false} GeneratedKeysNeverCollide(tenant1: int, task1: int, suffix1: string, token1: string,
                                                     tenant2: int, task2: int, suffix2: string, token2: string)
    requires IsToken(token1) && BuildKey(tenant1, task1, suffix1, token1).Success?
    requires IsToken(token2) && BuildKey(tenant2, task2, suffix2, token2).Success?
    requires BuildKey(tenant1, task1, suffix1, token1) == BuildKey(tenant2, task2, suffix2, token2)
    ensures tenant1 == tenant2 && task1 == task2 && token1 == token2
    ensures StoredSuffix(suffix1) == StoredSuffix(suffix2)
  {
    GeneratedKeyRoundTrip(tenant1, task1, suffix1, token1);
    GeneratedKeyRoundTrip(tenant2, task2, suffix2, token2);
  }

  /** A key of one tenant never resolves into another tenant's directory. */
  lemma {:induction false} TenantDirectoriesAreDisjoint(root: Path, tenant: int, task: int, suffix: string,
                                                        token: string, other: nat)
    requires IsToken(token) && BuildKey(tenant, task, suffix, token).Success?
    ensures var path := Resolve(root, BuildKey(tenant, task, suffix, token).value);
            root + ["tenants", Decimal(other)] <= path <==> other == tenant
  {
    var key := BuildKey(tenant, task, suffix, token).value;
    GeneratedKeyRoundTrip(tenant, task, suffix, token);
    SegmentRuleIsExact(root, key);
    DecimalRoundTrip(tenant);
    DecimalRoundTrip(other);
    var path := root + Split(key);
    assert path[..|root| + 2] == root + ["tenants", Decimal(tenant)];
    assert (root + ["tenants", Decimal(other)])[|root| + 1] == Decimal(other);
    assert path[|root| + 1] == Decimal(tenant);
  }

  /** Under every root the path lies in this tenant's directory and in no other. */
  ghost predicate OwnDirectoryOnly(key: string, tenant: nat) {
    forall root: Path, other: nat :: root + ["tenants", Decimal(other)] <= Resolve(root, key) <==> other == tenant
  }

  lemma {:induction false} GeneratedInOwnDirectory(tenant: int, task: int, suffix: string, token: string)
    requires IsToken(token) && BuildKey(tenant, task, suffix, token).Success?
    ensures tenant > 0 && OwnDirectoryOnly(BuildKey(tenant, task, suffix, token).value, tenant)
  {
    var key := BuildKey(tenant, task, suffix, token).value;
    hide Resolve, Decimal, Split, StoredSuffix, IsToken;
    forall root: Path, other: nat
      ensures root + ["tenants", Decimal(other)] <= Resolve(root, key) <==> other == tenant
    {
      TenantDirectoriesAreDisjoint(root, tenant, task, suffix, token, other);
    }
  }
}
