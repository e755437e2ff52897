/** Naming the connected accounts of one app so that no two share a name
    (server/connector-lifecycle.ts, folded as in server/composio.ts). */
module ConnectorIdentity {
  import opened JsText
  import opened Options
  import opened Sets

  const COLON: Unit := 58

  // ----- slugs -----

  predicate SlugUnit(u: Unit) {
    97 <= u <= 122 || 48 <= u <= 57 || u == 45
  }

  predicate SlugUnits(t: Text) {
    forall i :: 0 <= i < |t| ==> SlugUnit(t[i])
  }

  function KeepSlugUnits(t: Text): (r: Text)
    ensures SlugUnits(r)
  {
    if t == [] then [] else (if SlugUnit(t[0]) then [t[0]] else []) + KeepSlugUnits(t[1..])
  }

  function NormalizeSlug(slug: Text): Text {
    KeepSlugUnits(Lower(Trim(slug)))
  }

  lemma {:induction false} KeepConcat(a: Text, b: Text)
    ensures KeepSlugUnits(a + b) == KeepSlugUnits(a) + KeepSlugUnits(b)
  {
    if a == [] {
      assert a + b == b;
    } else {
      KeepConcat(a[1..], b);
      assert (a + b)[1..] == a[1..] + b;
      Regroup(if SlugUnit(a[0]) then [a[0]] else [], KeepSlugUnits(a[1..]), KeepSlugUnits(b));
    }
  }

  lemma {:induction false} BlankNoSlug(t: Text)
    requires Blank(t)
    ensures KeepSlugUnits(Lower(t)) == []
  {
    if t != [] {
      BlankNoSlug(t[1..]);
      KeepConcat(LowerUnit(t[0]), Lower(t[1..]));
      assert [t[0]][1..] == [];
    }
  }

  /** Trimming does not matter: white space gives nothing anyway. */
  lemma SlugUntrimmed(t: Text)
    ensures NormalizeSlug(t) == KeepSlugUnits(Lower(t))
  {
    hide KeepSlugUnits, Lower, IsSpace;
    var end, r := TrimEnd(t), Trim(t);
    assert t == end + t[|end|..] && end == end[..|end| - |r|] + r;
    NoSlugAfter(end, t[|end|..]);
    NoSlugBefore(end[..|end| - |r|], r);
  }

  lemma NoSlugAfter(t: Text, blank: Text)
    requires Blank(blank)
    ensures KeepSlugUnits(Lower(t + blank)) == KeepSlugUnits(Lower(t))
  {
    hide KeepSlugUnits, Lower, IsSpace;
    LowerConcat(t, blank);
    KeepConcat(Lower(t), Lower(blank));
    BlankNoSlug(blank);
  }

  lemma NoSlugBefore(blank: Text, t: Text)
    requires Blank(blank)
    ensures KeepSlugUnits(Lower(blank + t)) == KeepSlugUnits(Lower(t))
  {
    hide KeepSlugUnits, Lower, IsSpace;
    LowerConcat(blank, t);
    KeepConcat(Lower(blank), Lower(t));
    BlankNoSlug(blank);
  }

  /** A slug is made unit by unit, in order: letters in lower case, digits and hyphens as they are,
      the Kelvin sign a k, the dotted capital i an i, and nothing of anything else. */
  lemma SlugByUnits(a: Text, b: Text, u: Unit)
    ensures NormalizeSlug(a + b) == NormalizeSlug(a) + NormalizeSlug(b) && NormalizeSlug([]) == []
    ensures NormalizeSlug([u]) ==
            if 97 <= u <= 122 || 48 <= u <= 57 || u == 45 then [u]
            else if 65 <= u <= 90 then [u + 32]
            else if u == 0x212A then [107] else if u == 0x130 then [105] else []
  {
    SlugUntrimmed(a + b);
    SlugUntrimmed(a);
    SlugUntrimmed(b);
    LowerConcat(a, b);
    KeepConcat(Lower(a), Lower(b));
    SlugUntrimmed([]);
    SlugUntrimmed([u]);
    LowerOne(u);
  }

  lemma LowerOne(u: Unit)
    ensures KeepSlugUnits(Lower([u])) ==
            if 97 <= u <= 122 || 48 <= u <= 57 || u == 45 then [u]
            else if 65 <= u <= 90 then [u + 32]
            else if u == 0x212A then [107] else if u == 0x130 then [105] else []
  {
    assert [u][1..] == [] && Lower([u]) == LowerUnit(u) + [] == LowerUnit(u);
    if u == DOTTED_I {
      KeepConcat([LETTER_I], [DOT_ABOVE]);
      KeepOne(LETTER_I);
      KeepOne(DOT_ABOVE);
    } else {
      KeepOne(LowerUnit(u)[0]);
    }
  }

  lemma KeepOne(u: Unit)
    ensures KeepSlugUnits([u]) == if SlugUnit(u) then [u] else []
  {
    assert [u][1..] == [];
  }

  /** A slug of slug units is its own name. */
  lemma {:induction false} SlugKept(slug: Text)
    requires SlugUnits(slug)
    ensures NormalizeSlug(slug) == slug
  {
    hide NormalizeSlug;
    if slug == [] {
      SlugByUnits([], [], 45);
    } else {
      SlugKept(slug[1..]);
      SlugByUnits([slug[0]], slug[1..], slug[0]);
      assert slug == [slug[0]] + slug[1..];
    }
  }

  /** `split(":")[0]` */
  function BeforeColon(t: Text): Text {
    if t == [] || t[0] == COLON then [] else [t[0]] + BeforeColon(t[1..])
  }

  function IdentitySlug(identity: Text): Text {
    BeforeColon(Lower(Trim(identity)))
  }

  // ----- suffixes -----

  /** A number as a template string writes it. */
  function Decimal(n: nat): (r: Text)
    ensures r != [] && forall i :: 0 <= i < |r| ==> 48 <= r[i] <= 57
  {
    if n < 10 then [48 + n] else Decimal(n / 10) + [48 + n % 10]
  }

  lemma {:induction false} DecimalInjective(m: nat, n: nat)
    requires Decimal(m) == Decimal(n)
    ensures m == n
    decreases m
  {
    var s, t := Decimal(m), Decimal(n);
    assert s[|s| - 1] == 48 + m % 10 && t[|t| - 1] == 48 + n % 10;
    if m >= 10 && n >= 10 {
      assert s[..|s| - 1] == Decimal(m / 10) && t[..|t| - 1] == Decimal(n / 10);
      DecimalInjective(m / 10, n / 10);
    }
  }

  /** What digits are read as. */
  function Value(t: Text): int {
    if t == [] then 0 else 10 * Value(t[..|t| - 1]) + (t[|t| - 1] as int - 48)
  }

  /** A number reads back as itself, and does not start with a nought unless it is one. */
  lemma {:induction false} DecimalReads(n: nat)
    ensures Value(Decimal(n)) == n && (n > 0 ==> Decimal(n)[0] != 48)
  {
    var t := Decimal(n);
    if n < 10 {
      assert t[..0] == [];
    } else {
      DecimalReads(n / 10);
      assert t[..|t| - 1] == Decimal(n / 10);
    }
  }

  function Suffixed(slug: Text, suffix: Text): Text {
    slug + [COLON] + suffix
  }

  lemma SuffixedInjective(slug: Text, a: Text, b: Text)
    requires Suffixed(slug, a) == Suffixed(slug, b)
    ensures a == b
  {
    assert Suffixed(slug, a)[|slug| + 1..] == a && Suffixed(slug, b)[|slug| + 1..] == b;
  }

  function Numbered(slug: Text, n: nat): Text {
    Suffixed(slug, Decimal(n))
  }

  function NumberedUpTo(slug: Text, n: nat): (r: set<Text>)
    requires n >= 2
  {
    if n == 2 then {} else NumberedUpTo(slug, n - 1) + {Numbered(slug, n - 1)}
  }

  lemma {:induction false} NumberedCount(slug: Text, n: nat)
    requires n >= 2
    ensures |NumberedUpTo(slug, n)| == n - 2
    ensures forall x :: x in NumberedUpTo(slug, n) ==> exists k: nat :: 2 <= k < n && x == Numbered(slug, k)
  {
    if n > 2 {
      NumberedCount(slug, n - 1);
      var x := Numbered(slug, n - 1);
      if x in NumberedUpTo(slug, n - 1) {
        var k: nat :| 2 <= k < n - 1 && x == Numbered(slug, k);
        SuffixedInjective(slug, Decimal(k), Decimal(n - 1));
        DecimalInjective(k, n - 1);
      }
    }
  }

  // ----- allocation -----

  /** A name given out; the empty key stands for no key at all. */
  datatype Claim = Claim(identity: Text, key: Text)

  function Used(claimed: seq<Claim>): (r: set<Text>)
    ensures |r| <= |claimed|
    ensures forall x :: x in r <==> exists i :: 0 <= i < |claimed| && claimed[i].identity == x
  {
    if claimed == [] then {}
    else
      var last := claimed[|claimed| - 1];
      assert claimed == claimed[..|claimed| - 1] + [last];
      Used(claimed[..|claimed| - 1]) + {last.identity}
  }

  predicate KeyUnit(u: Unit) {
    97 <= u <= 122 || 65 <= u <= 90 || 48 <= u <= 57 || u == 95 || u == 45
  }

  predicate PlainKey(key: Text) {
    key != [] && forall i :: 0 <= i < |key| ==> KeyUnit(key[i])
  }

  function Base(slug: Text, key: Text): Text {
    if PlainKey(key) then Suffixed(slug, key) else Numbered(slug, 2)
  }

  /** The same account, claimed before. */
  predicate SameAccount(c: Claim, slug: Text, key: Text) {
    key != [] && c.key == key && IdentitySlug(c.identity) == slug
  }

  /** The name for an account no claim knows: the slug itself, else the slug with the key,
      else with the least number from 2 that is free. */
  ghost predicate FreshName(used: set<Text>, slug: Text, key: Text, identity: Text) {
    && identity !in used
    && (slug in used ==> identity == Base(slug, key) || NumberedName(used, slug, key, identity))
    && (slug !in used ==> identity == slug)
  }

  ghost predicate NumberedName(used: set<Text>, slug: Text, key: Text, identity: Text) {
    && Base(slug, key) in used
    && exists n: nat :: LeastNumber(used, slug, n) && identity == Numbered(slug, n)
  }

  ghost predicate LeastNumber(used: set<Text>, slug: Text, n: nat) {
    n >= 2 && Numbered(slug, n) !in used && forall k: nat :: 2 <= k < n ==> Numbered(slug, k) in used
  }

  function FirstTrue(flags: seq<bool>, i: nat): (first: nat)
    requires i <= |flags|
    ensures i <= first <= |flags| && (first < |flags| ==> flags[first])
    ensures forall j :: i <= j < first ==> !flags[j]
    decreases |flags| - i
  {
    if i == |flags| || flags[i] then i else FirstTrue(flags, i + 1)
  }

  /** The first claim of the same account, or the number of claims. */
  function FirstSame(claimed: seq<Claim>, slug: Text, key: Text): (first: nat)
    ensures first <= |claimed|
  {
    FirstTrue(Sames(claimed, slug, key), 0)
  }

  function Sames(claimed: seq<Claim>, slug: Text, key: Text): (flags: seq<bool>)
    ensures |flags| == |claimed|
  {
    seq(|claimed|, i requires 0 <= i < |claimed| => SameAccount(claimed[i], slug, key))
  }

  ghost predicate Allocated(claimed: seq<Claim>, slug: Text, key: Text, identity: Text) {
    var first := FirstSame(claimed, slug, key);
    if first < |claimed| then identity == claimed[first].identity
    else FreshName(Used(claimed), slug, key, identity)
  }

  /** There is only one name to allocate. */
  lemma AllocatedUnique(claimed: seq<Claim>, slug: Text, key: Text, a: Text, b: Text)
    requires Allocated(claimed, slug, key, a) && Allocated(claimed, slug, key, b)
    ensures a == b
  {
  }

  /** A known account, one of the slug with the same key, keeps the name it was given first. */
  lemma KnownName(claimed: seq<Claim>, slug: Text, key: Text, identity: Text, i: nat)
    requires Allocated(claimed, slug, key, identity) && key != [] && i < |claimed|
    requires claimed[i].key == key && IdentitySlug(claimed[i].identity) == slug
    requires forall j :: 0 <= j < i ==> claimed[j].key != key || IdentitySlug(claimed[j].identity) != slug
    ensures identity == claimed[i].identity
  {
    hide FreshName, IdentitySlug, Used;
    assert Sames(claimed, slug, key)[i] && forall j :: 0 <= j < i ==> !Sames(claimed, slug, key)[j];
  }

  /** An account no claim of the slug knows is named by the slug if that is free; otherwise by the slug, a colon and
      its key, if the key is all letters, digits, underscores and hyphens, and else 2; and if that is
      taken too, by the least number from 2 that is free. */
  lemma NewNames(claimed: seq<Claim>, slug: Text, key: Text, identity: Text)
    requires Allocated(claimed, slug, key, identity)
    requires key == [] || forall i :: 0 <= i < |claimed| ==>
                            claimed[i].key != key || IdentitySlug(claimed[i].identity) != slug
    ensures var taken := set i | 0 <= i < |claimed| :: claimed[i].identity;
            var plain := key != [] && forall i :: 0 <= i < |key| ==>
                           || 97 <= key[i] <= 122 || 65 <= key[i] <= 90 || 48 <= key[i] <= 57
                           || key[i] == 95 || key[i] == 45;
            var base := slug + [58] + if plain then key else [50];
            && identity !in taken && (slug !in taken ==> identity == slug)
            && (slug in taken && base !in taken ==> identity == base)
            && (slug in taken && base in taken ==>
                  exists n: nat :: LeastNumber(taken, slug, n) && identity == slug + [58] + Decimal(n))
  {
    hide NumberedUpTo, LeastNumber;
    var taken := set i | 0 <= i < |claimed| :: claimed[i].identity;
    assert taken == Used(claimed);
    assert forall i :: 0 <= i < |claimed| ==> !Sames(claimed, slug, key)[i];
    assert FreshName(taken, slug, key, identity);
    BaseIs(slug, key);
    if slug in taken && Base(slug, key) in taken {
      var n: nat :| LeastNumber(taken, slug, n) && identity == Numbered(slug, n);
      assert identity == slug + [58] + Decimal(n);
    }
  }

  lemma BaseIs(slug: Text, key: Text)
    ensures var plain := key != [] && forall i :: 0 <= i < |key| ==>
                           || 97 <= key[i] <= 122 || 65 <= key[i] <= 90 || 48 <= key[i] <= 57
                           || key[i] == 95 || key[i] == 45;
            Base(slug, key) == slug + [58] + if plain then key else [50]
  {
  }

  /** The first free number: there is one among the first `|used| + 1`. */
  method FreeName(used: set<Text>, slug: Text, base: Text) returns (identity: Text)
    ensures identity !in used
    ensures base !in used ==> identity == base
    ensures base in used ==> exists n: nat :: LeastNumber(used, slug, n) && identity == Numbered(slug, n)
  {
    identity := base;
    var n: nat := 2;
    while identity in used
      invariant n >= 2
      invariant n == 2 ==> identity == base
      invariant n > 2 ==> base in used && identity == Numbered(slug, n - 1)
      invariant forall k: nat :: 2 <= k < n - 1 ==> Numbered(slug, k) in used
      invariant n > 2 ==> NumberedUpTo(slug, n - 1) <= used && n - 3 <= |used|
      decreases |used| + 3 - n
    {
      if n > 2 {
        assert NumberedUpTo(slug, n) <= used;
        NumberedCount(slug, n);
        Within(NumberedUpTo(slug, n), used);
      }
      identity := Numbered(slug, n);
      n := n + 1;
    }
    if base in used { assert LeastNumber(used, slug, n - 1); }
  }

  method Allocate(claimed: seq<Claim>, normalized: Text, key: Text) returns (identity: Text)
    ensures Allocated(claimed, normalized, key, identity)
  {
    var i := 0;
    while i < |claimed|
      invariant 0 <= i <= |claimed|
      invariant FirstTrue(Sames(claimed, normalized, key), i) == FirstSame(claimed, normalized, key)
    {
      if SameAccount(claimed[i], normalized, key) { return claimed[i].identity; }
      i := i + 1;
    }
    var used := Used(claimed);
    if normalized !in used { return normalized; }
    identity := FreeName(used, normalized, Base(normalized, key));
  }

  datatype Allocation = Allocation(identity: Text, suffixed: bool)

  /** `None` is the error thrown for a slug without a letter, digit or hyphen. */
  method AllocateConnectorIdentity(claimed: seq<Claim>, slug: Text, accountKey: Text) returns (r: Option<Allocation>)
    ensures r.None? <==> NormalizeSlug(slug) == []
    ensures r.Some? ==> Allocated(claimed, NormalizeSlug(slug), Trim(accountKey), r.value.identity)
    ensures r.Some? ==> (r.value.suffixed <==> r.value.identity != NormalizeSlug(slug))
  {
    var normalized, key := NormalizeSlug(slug), Trim(accountKey);
    if normalized == [] { return None; }
    var identity := Allocate(claimed, normalized, key);
    return Some(Allocation(identity, identity != normalized));
  }

  // ----- the fold over one app's accounts -----

  lemma {:induction false} SlugLower(t: Text)
    requires SlugUnits(t)
    ensures Lower(t) == t
  {
    if t != [] { SlugLower(t[1..]); }
  }

  lemma {:induction false} BeforeFirstColon(slug: Text, rest: Text)
    requires SlugUnits(slug) && (rest == [] || rest[0] == COLON)
    ensures BeforeColon(slug + rest) == slug
  {
    if slug == [] {
      assert slug + rest == rest;
    } else {
      assert (slug + rest)[1..] == slug[1..] + rest;
      BeforeFirstColon(slug[1..], rest);
    }
  }

  predicate SolidUnits(t: Text) {
    t != [] && forall i :: 0 <= i < |t| ==> !IsSpace(t[i])
  }

  predicate Slug(slug: Text) {
    slug != [] && SlugUnits(slug)
  }

  lemma SlugOfSlug(slug: Text)
    requires Slug(slug)
    ensures IdentitySlug(slug) == slug
  {
    TrimTrimmed(slug);
    hide Trim, Lower, BeforeColon;
    SlugLower(slug);
    BeforeFirstColon(slug, []);
    assert slug + [] == slug;
  }

  lemma SuffixedTrimmed(slug: Text, suffix: Text)
    requires Slug(slug) && SolidUnits(suffix)
    ensures Trim(Suffixed(slug, suffix)) == Suffixed(slug, suffix)
  {
    TrimTrimmed(Suffixed(slug, suffix));
  }

  lemma LowerSuffixed(slug: Text, suffix: Text) returns (rest: Text)
    requires Slug(slug)
    ensures rest != [] && rest[0] == COLON && Lower(Suffixed(slug, suffix)) == slug + rest
  {
    rest := Lower([COLON] + suffix);
    Regroup(slug, [COLON], suffix);
    SlugLower(slug);
    LowerConcat(slug, [COLON] + suffix);
  }

  lemma SlugOfSuffixed(slug: Text, suffix: Text)
    requires Slug(slug) && SolidUnits(suffix)
    ensures IdentitySlug(Suffixed(slug, suffix)) == slug
  {
    SuffixedTrimmed(slug, suffix);
    var rest := LowerSuffixed(slug, suffix);
    BeforeFirstColon(slug, rest);
  }

  /** The slug itself, or the slug with a suffix. */
  predicate NameOf(identity: Text, slug: Text) {
    || identity == slug
    || (&& |identity| > |slug| + 1
        && identity == Suffixed(slug, identity[|slug| + 1..]) && SolidUnits(identity[|slug| + 1..]))
  }

  lemma SuffixedName(slug: Text, suffix: Text)
    requires SolidUnits(suffix)
    ensures NameOf(Suffixed(slug, suffix), slug)
  {
    assert Suffixed(slug, suffix)[|slug| + 1..] == suffix;
  }

  /** Every name given for a slug reads back as that slug. */
  lemma NameSlug(slug: Text, identity: Text)
    requires Slug(slug) && NameOf(identity, slug)
    ensures IdentitySlug(identity) == slug
  {
    if identity == slug { SlugOfSlug(slug); } else { SlugOfSuffixed(slug, identity[|slug| + 1..]); }
  }

  lemma FreshNamed(used: set<Text>, slug: Text, key: Text, identity: Text)
    requires FreshName(used, slug, key, identity)
    ensures NameOf(identity, slug)
  {
    if slug in used {
      if identity == Base(slug, key) {
        SuffixedName(slug, if PlainKey(key) then key else Decimal(2));
      } else {
        var n: nat :| LeastNumber(used, slug, n) && identity == Numbered(slug, n);
        SuffixedName(slug, Decimal(n));
      }
    }
  }

  /** Every claim is a name of the slug, and two share a name exactly when they share a key. */
  ghost predicate Apart(claimed: seq<Claim>, slug: Text) {
    && (forall i :: 0 <= i < |claimed| ==> NameOf(claimed[i].identity, slug))
    && Distinguished(claimed)
  }

  ghost predicate Distinguished(claimed: seq<Claim>) {
    forall i, j :: 0 <= i < j < |claimed| ==> SameName(claimed[i], claimed[j])
  }

  predicate SameName(a: Claim, b: Claim) {
    a.identity == b.identity <==> a.key == b.key != []
  }

  lemma KnownAccount(claimed: seq<Claim>, next: Claim, i: nat)
    requires Distinguished(claimed) && i < |claimed|
    requires claimed[i].key == next.key != [] && claimed[i].identity == next.identity
    ensures Distinguished(claimed + [next])
  {
    forall j | 0 <= j < |claimed| ensures SameName(claimed[j], next) {
      if j < i { assert SameName(claimed[j], claimed[i]); }
      if i < j { assert SameName(claimed[i], claimed[j]); }
    }
  }

  lemma NewAccount(claimed: seq<Claim>, next: Claim)
    requires Distinguished(claimed)
    requires forall j :: 0 <= j < |claimed| ==> claimed[j].identity != next.identity
    requires next.key != [] ==> forall j :: 0 <= j < |claimed| ==> claimed[j].key != next.key
    ensures Distinguished(claimed + [next])
  {
    forall j | 0 <= j < |claimed| ensures SameName(claimed[j], next) {}
  }

  lemma FreshUnused(claimed: seq<Claim>, slug: Text, key: Text, identity: Text)
    requires FreshName(Used(claimed), slug, key, identity)
    ensures forall j :: 0 <= j < |claimed| ==> claimed[j].identity != identity
  {
    forall j | 0 <= j < |claimed| ensures claimed[j].identity != identity {
      assert claimed[j].identity in Used(claimed);
    }
  }

  lemma StrangerKey(c: Claim, slug: Text, key: Text)
    requires Slug(slug) && NameOf(c.identity, slug) && key != [] && !SameAccount(c, slug, key)
    ensures c.key != key
  {
    NameSlug(slug, c.identity);
  }

  /** One more account keeps the claims apart. */
  lemma ClaimKeepsApart(claimed: seq<Claim>, slug: Text, key: Text, identity: Text)
    requires Slug(slug) && Apart(claimed, slug) && Allocated(claimed, slug, key, identity)
    ensures Apart(claimed + [Claim(identity, key)], slug)
  {
    var next, first := Claim(identity, key), FirstSame(claimed, slug, key);
    if first < |claimed| {
      assert Sames(claimed, slug, key)[first];
      KnownAccount(claimed, next, first);
    } else {
      FreshUnused(claimed, slug, key, identity);
      FreshNamed(Used(claimed), slug, key, identity);
      forall j | 0 <= j < |claimed| && key != [] ensures claimed[j].key != key {
        assert !Sames(claimed, slug, key)[j];
        StrangerKey(claimed[j], slug, key);
      }
      NewAccount(claimed, next);
    }
  }

  method ClaimNext(claimed: seq<Claim>, slug: Text, key: Text) returns (identity: Text)
    requires Slug(slug) && Apart(claimed, slug)
    ensures Apart(claimed + [Claim(identity, key)], slug) && (claimed == [] ==> identity == slug)
  {
    identity := Allocate(claimed, slug, key);
    ClaimKeepsApart(claimed, slug, key, identity);
  }

  /** One account after another, each seeing the names given before it. */
  method NameAccounts(slug: Text, keys: seq<Text>) returns (names: seq<Text>)
    requires Slug(slug)
    ensures |names| == |keys| && (keys != [] ==> names[0] == slug)
    ensures forall i, j :: 0 <= i < j < |keys| ==> (names[i] == names[j] <==> keys[i] == keys[j] != [])
  {
    var claimed: seq<Claim> := [];
    names := [];
    while |names| < |keys|
      invariant |claimed| == |names| <= |keys|
      invariant Apart(claimed, slug)
      invariant forall j :: 0 <= j < |names| ==> claimed[j] == Claim(names[j], keys[j])
      invariant names != [] ==> names[0] == slug
    {
      var key := keys[|names|];
      var identity := ClaimNext(claimed, slug, key);
      claimed, names := claimed + [Claim(identity, key)], names + [identity];
    }
    forall i, j | 0 <= i < j < |keys| ensures names[i] == names[j] <==> keys[i] == keys[j] != [] {
      assert SameName(claimed[i], claimed[j]);
    }
  }

  function Trims(texts: seq<Text>): (r: seq<Text>)
    ensures |r| == |texts|
  {
    seq(|texts|, i requires 0 <= i < |texts| => Trim(texts[i]))
  }

  /** The names of an app's accounts, found by their ids: two accounts share a name exactly
      when their trimmed ids are the same and not empty. */
  method AccountIdentities(slug: Text, ids: seq<Text>) returns (names: Option<seq<Text>>)
    ensures names.None? <==> NormalizeSlug(slug) == []
    ensures names.Some? ==> |names.value| == if ids == [] then 1 else |ids|
    ensures names.Some? ==> names.value[0] == NormalizeSlug(slug)
    ensures names.Some? ==> forall i, j :: 0 <= i < j < |ids| ==>
              (names.value[i] == names.value[j] <==> Trim(ids[i]) == Trim(ids[j]) != [])
  {
    var normalized, keys := NormalizeSlug(slug), if ids == [] then [[]] else Trims(ids);
    if normalized == [] { return None; }
    var given := NameAccounts(normalized, keys);
    return Some(given);
  }
}
