/**
 * ApiKeyAuthConfig: turns the configuration strings into the filter's key
 * list and whitelist and registers the filter. Keys come from API_KEY (one
 * key) and security.apikey.keys (comma-separated); they are trimmed, blanks
 * are dropped and duplicates are removed keeping first occurrences. The
 * whitelist is the comma-separated patterns, trimmed, blanks dropped.
 */
module ApiKeyConfig {
  import opened Wrappers
  import opened Strings
  import opened ApiKeyFilter

  const Comma := ","
  /** The whitelist used when security.apikey.whitelist is not set. */
  const DefaultWhitelist := "/api/v1/health,/swagger-ui/**,/v3/api-docs/**,/swagger-ui.html"
  /** The URL pattern and order the enabled filter is registered with. */
  const AllPaths := "/*"
  const FilterOrder := 10
  /** A registration's order before it is set: Ordered.LOWEST_PRECEDENCE. */
  const LowestPrecedence := 0x7FFF_FFFF

  // ---------------------------------------------------------------------------
  // Insertion into a LinkedHashSet
  // ---------------------------------------------------------------------------

  /** The set's contents after adding each element in turn: first occurrences, in order. */
  function Distinct(xs: seq<string>): (r: seq<string>)
    ensures forall x :: x in r <==> x in xs
  {
    if xs == [] then []
    else
      var init := xs[..|xs| - 1];
      var x := xs[|xs| - 1];
      assert xs == init + [x];
      var front := Distinct(init);
      if x in front then front else front + [x]
  }

  /** The index of the first occurrence of `x`. */
  function FirstIndex(xs: seq<string>, x: string): (i: nat)
    requires x in xs
    ensures i < |xs| && xs[i] == x
    ensures forall j :: 0 <= j < i ==> xs[j] != x
  {
    if xs[0] == x then 0 else 1 + FirstIndex(xs[1..], x)
  }

  /** No element appears twice. */
  predicate NoDuplicates(xs: seq<string>) {
    forall i, j :: 0 <= i < j < |xs| ==> xs[i] != xs[j]
  }

  lemma {:induction false} DistinctHasNoDuplicates(xs: seq<string>)
    ensures NoDuplicates(Distinct(xs))
    decreases |xs|
  {
    if xs != [] {
      DistinctHasNoDuplicates(xs[..|xs| - 1]);
    }
  }

  /** A prefix of `xs` agrees with `xs` on where its elements first occur. */
  lemma FirstIndexInPrefix(xs: seq<string>, n: nat, x: string)
    requires n <= |xs| && x in xs[..n]
    ensures x in xs && FirstIndex(xs, x) == FirstIndex(xs[..n], x)
  {
    var k := FirstIndex(xs[..n], x);
    assert xs[k] == x;
  }

  /** The elements of `r` occur in `xs`, in the order of their first occurrences there. */
  predicate InFirstOccurrenceOrder(r: seq<string>, xs: seq<string>) {
    && (forall x :: x in r ==> x in xs)
    && (forall i, j :: 0 <= i < j < |r| ==> FirstIndex(xs, r[i]) < FirstIndex(xs, r[j]))
  }

  /** The set keeps the order in which its elements first occurred. */
  lemma {:induction false} DistinctKeepsFirstOccurrenceOrder(xs: seq<string>)
    ensures InFirstOccurrenceOrder(Distinct(xs), xs)
    decreases |xs|
  {
    if xs != [] {
      var init := xs[..|xs| - 1];
      var x := xs[|xs| - 1];
      var front := Distinct(init);
      DistinctKeepsFirstOccurrenceOrder(init);
      var r := Distinct(xs);
      assert xs[..|init|] == init;
      forall i, j | 0 <= i < j < |r| ensures FirstIndex(xs, r[i]) < FirstIndex(xs, r[j]) {
        assert r[i] == front[i] && r[i] in init;
        FirstIndexInPrefix(xs, |init|, r[i]);
        if j < |front| {
          assert r[j] == front[j] && r[j] in init;
          FirstIndexInPrefix(xs, |init|, r[j]);
        } else {
          assert r[j] == x && x !in init;
          assert FirstIndex(xs, x) == |init|;
        }
      }
    }
  }

  /** The first element offered is the set's first element. */
  lemma {:induction false} DistinctStartsWithFirst(xs: seq<string>)
    requires xs != []
    ensures Distinct(xs) != [] && Distinct(xs)[0] == xs[0]
    decreases |xs|
  {
    if |xs| > 1 {
      var init := xs[..|xs| - 1];
      DistinctStartsWithFirst(init);
      assert init[0] == xs[0];
    }
  }

  lemma DistinctSnoc(xs: seq<string>, x: string)
    ensures Distinct(xs + [x]) == if x in Distinct(xs) then Distinct(xs) else Distinct(xs) + [x]
  {
    assert (xs + [x])[..|xs|] == xs;
  }

  // ---------------------------------------------------------------------------
  // The parts kept from a comma-separated string
  // ---------------------------------------------------------------------------

  /** The trimmed parts that are not blank, in order, duplicates included. */
  function Kept(parts: seq<string>): (r: seq<string>)
    ensures |r| <= |parts|
    ensures forall i :: 0 <= i < |r| ==> IsTrimmed(r[i])
  {
    if parts == [] then []
    else
      var front := Kept(parts[..|parts| - 1]);
      var p := parts[|parts| - 1];
      if IsBlank(p) then front
      else
        TrimSpec(p);
        front + [Trim(p)]
  }

  /** Every kept entry is the trim of a non-blank part, and every non-blank part gives one. */
  lemma KeptMembers(parts: seq<string>, x: string)
    ensures x in Kept(parts) <==> exists i :: 0 <= i < |parts| && !IsBlank(parts[i]) && x == Trim(parts[i])
  {
    if x in Kept(parts) {
      var i := KeptFrom(parts, x);
    }
    forall i | 0 <= i < |parts| && !IsBlank(parts[i]) && x == Trim(parts[i]) ensures x in Kept(parts) {
      KeptIn(parts, i);
    }
  }

  /** A kept entry names the non-blank part it is the trim of. */
  lemma {:induction false} KeptFrom(parts: seq<string>, x: string) returns (i: nat)
    requires x in Kept(parts)
    ensures i < |parts| && !IsBlank(parts[i]) && x == Trim(parts[i])
    decreases |parts|
  {
    var n := |parts| - 1;
    var init := parts[..n];
    var last := if IsBlank(parts[n]) then [] else [Trim(parts[n])];
    assert Kept(parts) == Kept(init) + last;
    if x in Kept(init) {
      i := KeptFrom(init, x);
      assert parts[i] == init[i];
    } else {
      i := n;
    }
  }

  /** The trim of a non-blank part is kept. */
  lemma {:induction false} KeptIn(parts: seq<string>, i: nat)
    requires i < |parts| && !IsBlank(parts[i])
    ensures Trim(parts[i]) in Kept(parts)
    decreases |parts|
  {
    var n := |parts| - 1;
    var init := parts[..n];
    var last := if IsBlank(parts[n]) then [] else [Trim(parts[n])];
    assert Kept(parts) == Kept(init) + last;
    if i < n {
      assert parts[i] == init[i];
      KeptIn(init, i);
      var k :| 0 <= k < |Kept(init)| && Kept(init)[k] == Trim(parts[i]);
      assert Kept(parts)[k] == Trim(parts[i]);
    } else {
      assert last == [Trim(parts[i])];
      assert Kept(parts)[|Kept(init)|] == Trim(parts[i]);
    }
  }

  lemma KeptSnoc(parts: seq<string>, i: nat)
    requires i < |parts|
    ensures Kept(parts[..i + 1]) == Kept(parts[..i]) + if IsBlank(parts[i]) then [] else [Trim(parts[i])]
  {
    assert parts[..i + 1][..i] == parts[..i];
  }

  /** The parts of a setting: nothing when it is unset or blank, else the kept parts of its split. */
  function SettingParts(setting: Option<string>): seq<string> {
    if setting.Some? && !IsBlank(setting.value) then Kept(JavaSplit(setting.value, Comma)) else []
  }

  /** The keys in the order they are offered to the set: the trimmed API_KEY first, then the list. */
  function OfferedKeys(envApiKey: Option<string>, configuredKeys: Option<string>): seq<string> {
    EnvOffered(envApiKey) + SettingParts(configuredKeys)
  }

  /** What API_KEY offers: its trim when it is set and not blank. */
  function EnvOffered(envApiKey: Option<string>): seq<string> {
    if envApiKey.Some? && !IsBlank(envApiKey.value) then [Trim(envApiKey.value)] else []
  }

  /** The key list `resolveKeys` returns. */
  function ResolvedKeys(envApiKey: Option<string>, configuredKeys: Option<string>): (r: seq<string>)
    ensures forall k :: k in r <==> k in OfferedKeys(envApiKey, configuredKeys)
    ensures NoDuplicates(r)
  {
    DistinctHasNoDuplicates(OfferedKeys(envApiKey, configuredKeys));
    Distinct(OfferedKeys(envApiKey, configuredKeys))
  }

  /** The pattern list `resolveWhitelist` returns. */
  function ResolvedWhitelist(patterns: Option<string>): (r: seq<string>)
    ensures forall i :: 0 <= i < |r| ==> IsTrimmed(r[i])
    ensures patterns.None? || IsBlank(patterns.value) ==> r == []
  {
    SettingParts(patterns)
  }

  // ---------------------------------------------------------------------------
  // The two resolvers
  // ---------------------------------------------------------------------------

  /** `resolveKeys`: adds each candidate key to an insertion-ordered set. */
  method ResolveKeys(envApiKey: Option<string>, configuredKeys: Option<string>) returns (keys: seq<string>)
    ensures keys == ResolvedKeys(envApiKey, configuredKeys)
  {
    keys := AddEnvKey(envApiKey);
    if configuredKeys.Some? && !IsBlank(configuredKeys.value) {
      var parts := JavaSplit(configuredKeys.value, Comma);
      keys := AddParts(keys, EnvOffered(envApiKey), parts);
    } else {
      assert EnvOffered(envApiKey) + [] == EnvOffered(envApiKey);
    }
  }

  /** The first step of `resolveKeys`: the trimmed API_KEY, when it is set and not blank, starts the set. */
  method AddEnvKey(envApiKey: Option<string>) returns (keys: seq<string>)
    ensures keys == Distinct(EnvOffered(envApiKey))
  {
    keys := [];
    if envApiKey.Some? && !IsBlank(envApiKey.value) {
      var t := Trim(envApiKey.value);
      keys := [t];
      assert [t] == [] + [t];
      DistinctSnoc([], t);
    }
  }

  /** The loop of `resolveKeys` over the split parts: each non-blank part is trimmed and added to the set. */
  method AddParts(keys0: seq<string>, ghost offered: seq<string>, parts: seq<string>) returns (keys: seq<string>)
    requires keys0 == Distinct(offered)
    ensures keys == Distinct(offered + Kept(parts))
  {
    keys := keys0;
    assert offered + Kept(parts[..0]) == offered;
    for i := 0 to |parts|
      invariant keys == Distinct(offered + Kept(parts[..i]))
    {
      OfferStep(offered, parts, i);
      var p := parts[i];
      if !IsBlank(p) {
        var k := Trim(p);
        if k !in keys {
          keys := keys + [k];
        }
      }
    }
    assert parts[..|parts|] == parts;
  }

  /** Offering one more part adds its trim to the set unless it is blank or already there. */
  lemma OfferStep(offered: seq<string>, parts: seq<string>, i: nat)
    requires i < |parts|
    ensures var before := Distinct(offered + Kept(parts[..i]));
      Distinct(offered + Kept(parts[..i + 1]))
        == if IsBlank(parts[i]) || Trim(parts[i]) in before then before else before + [Trim(parts[i])]
  {
    KeptSnoc(parts, i);
    if IsBlank(parts[i]) {
      assert Kept(parts[..i + 1]) == Kept(parts[..i]);
    } else {
      assert offered + Kept(parts[..i + 1]) == (offered + Kept(parts[..i])) + [Trim(parts[i])];
      DistinctSnoc(offered + Kept(parts[..i]), Trim(parts[i]));
    }
  }

  /** `resolveWhitelist`: appends each kept pattern in turn. */
  method ResolveWhitelist(patterns: Option<string>) returns (list: seq<string>)
    ensures list == ResolvedWhitelist(patterns)
  {
    list := [];
    if patterns.Some? && !IsBlank(patterns.value) {
      var parts := JavaSplit(patterns.value, Comma);
      for i := 0 to |parts|
        invariant list == Kept(parts[..i])
      {
        KeptSnoc(parts, i);
        var p := parts[i];
        if !IsBlank(p) {
          list := list + [Trim(p)];
        }
      }
      assert parts[..|parts|] == parts;
    }
  }

  // ---------------------------------------------------------------------------
  // Properties of the resolved lists
  // ---------------------------------------------------------------------------

  /** Every offered key is trimmed. */
  lemma OfferedKeysTrimmed(envApiKey: Option<string>, configuredKeys: Option<string>)
    ensures forall k :: k in OfferedKeys(envApiKey, configuredKeys) ==> IsTrimmed(k)
  {
    if envApiKey.Some? && !IsBlank(envApiKey.value) {
      TrimSpec(envApiKey.value);
    }
  }

  /**
   * The resolved keys are trimmed and distinct, they are exactly the offered
   * keys, and they keep the order in which each was first offered.
   */
  lemma ResolvedKeysShape(envApiKey: Option<string>, configuredKeys: Option<string>)
    ensures var r := ResolvedKeys(envApiKey, configuredKeys);
      var offered := OfferedKeys(envApiKey, configuredKeys);
      && NoDuplicates(r)
      && (forall k :: k in r <==> k in offered)
      && (forall k :: k in r ==> IsTrimmed(k))
      && InFirstOccurrenceOrder(r, offered)
  {
    var offered := OfferedKeys(envApiKey, configuredKeys);
    DistinctHasNoDuplicates(offered);
    DistinctKeepsFirstOccurrenceOrder(offered);
    OfferedKeysTrimmed(envApiKey, configuredKeys);
  }

  /** A non-blank API_KEY, trimmed, is the first resolved key. */
  lemma EnvKeyFirst(envApiKey: Option<string>, configuredKeys: Option<string>)
    requires envApiKey.Some? && !IsBlank(envApiKey.value)
    ensures ResolvedKeys(envApiKey, configuredKeys) != []
    ensures ResolvedKeys(envApiKey, configuredKeys)[0] == Trim(envApiKey.value)
  {
    DistinctStartsWithFirst(OfferedKeys(envApiKey, configuredKeys));
  }

  /** Unset or blank settings give no keys and no whitelist. */
  lemma BlankSettingsGiveNothing(envApiKey: Option<string>, configuredKeys: Option<string>, patterns: Option<string>)
    requires envApiKey.None? || IsBlank(envApiKey.value)
    requires configuredKeys.None? || IsBlank(configuredKeys.value)
    requires patterns.None? || IsBlank(patterns.value)
    ensures ResolvedKeys(envApiKey, configuredKeys) == []
    ensures ResolvedWhitelist(patterns) == []
  {
    assert OfferedKeys(envApiKey, configuredKeys) == [];
  }

  /**
   * The whitelist is the non-blank parts, trimmed, in their order; a pattern
   * listed twice stays listed twice.
   */
  lemma WhitelistEntries(patterns: string, x: string)
    requires !IsBlank(patterns)
    ensures var parts := JavaSplit(patterns, Comma);
      x in ResolvedWhitelist(Some(patterns)) <==> exists i :: 0 <= i < |parts| && !IsBlank(parts[i]) && x == Trim(parts[i])
  {
    KeptMembers(JavaSplit(patterns, Comma), x);
  }

  /** The number of non-blank parts. */
  function NonBlankCount(parts: seq<string>): nat {
    if parts == [] then 0 else NonBlankCount(parts[1..]) + if IsBlank(parts[0]) then 0 else 1
  }

  /**
   * Nothing but blank parts is dropped: the whitelist has one entry per
   * non-blank part, so a pattern listed twice stays listed twice.
   */
  lemma {:induction false} KeptKeepsEveryNonBlankPart(parts: seq<string>)
    ensures |Kept(parts)| == NonBlankCount(parts)
    decreases |parts|
  {
    if parts != [] {
      var init := parts[..|parts| - 1];
      KeptKeepsEveryNonBlankPart(init);
      NonBlankCountSnoc(init, parts[|parts| - 1]);
      assert init + [parts[|parts| - 1]] == parts;
    }
  }

  lemma {:induction false} NonBlankCountSnoc(parts: seq<string>, p: string)
    ensures NonBlankCount(parts + [p]) == NonBlankCount(parts) + if IsBlank(p) then 0 else 1
    decreases |parts|
  {
    if parts != [] {
      assert (parts + [p])[1..] == parts[1..] + [p];
      NonBlankCountSnoc(parts[1..], p);
    }
  }

  // ---------------------------------------------------------------------------
  // A blank key slips through, and the corrected resolver
  // ---------------------------------------------------------------------------

  /**
   * As written, a part is tested for blankness before it is trimmed, and the
   * two disagree on the controls U+0000..U+0008 and U+000E..U+001B: trim()
   * removes them, isBlank() does not count them as whitespace. Such a part
   * resolves to the empty key.
   */
  lemma BlankKeyResolved()
    ensures ResolvedKeys(None, Some("\U{1}")) == [""]
    ensures ResolvedKeys(Some("\U{1}"), None) == [""]
    ensures IsBlank("")
  {
    ControlPart();
    assert SettingParts(Some("\U{1}")) == [""] by {
      assert ["\U{1}"][..0] == [];
    }
    assert OfferedKeys(None, Some("\U{1}")) == [""];
    assert OfferedKeys(Some("\U{1}"), None) == [""];
    assert Distinct([""]) == [""] by {
      assert [""][..0] == [];
    }
  }

  /** U+0001 is not blank, trims to nothing, and contains no comma. */
  lemma ControlPart()
    ensures !IsBlank("\U{1}") && Trim("\U{1}") == ""
    ensures JavaSplit("\U{1}", Comma) == ["\U{1}"]
  {
    assert !IsWhitespace('\U{1}') && IsTrimmable('\U{1}');
    assert Trim("\U{1}") == "";
    assert FindFrom("\U{1}", Comma, 0) == None;
  }

  /** The strings that are not blank, in order. */
  function NonBlankOnly(xs: seq<string>): (r: seq<string>)
    ensures forall x :: x in r <==> x in xs && !IsBlank(x)
  {
    if xs == [] then []
    else
      var init := xs[..|xs| - 1];
      var x := xs[|xs| - 1];
      assert xs == init + [x];
      NonBlankOnly(init) + if IsBlank(x) then [] else [x]
  }

  lemma NonBlankOnlySnoc(xs: seq<string>, x: string)
    ensures NonBlankOnly(xs + [x]) == NonBlankOnly(xs) + if IsBlank(x) then [] else [x]
  {
    assert (xs + [x])[..|xs|] == xs;
  }

  /** The key list with the blankness test applied after trimming, as evidently intended. */
  function ResolvedKeysCorrected(envApiKey: Option<string>, configuredKeys: Option<string>): seq<string> {
    Distinct(NonBlankOnly(OfferedKeys(envApiKey, configuredKeys)))
  }

  /** One more part in the corrected resolver offers its trim unless either is blank. */
  lemma NonBlankOfferStep(offered: seq<string>, parts: seq<string>, i: nat)
    requires i < |parts|
    ensures NonBlankOnly(offered + Kept(parts[..i + 1]))
      == NonBlankOnly(offered + Kept(parts[..i]))
         + if IsBlank(parts[i]) || IsBlank(Trim(parts[i])) then [] else [Trim(parts[i])]
  {
    KeptSnoc(parts, i);
    var before := offered + Kept(parts[..i]);
    if IsBlank(parts[i]) {
      assert offered + Kept(parts[..i + 1]) == before;
    } else {
      var t := Trim(parts[i]);
      assert offered + Kept(parts[..i + 1]) == before + [t];
      NonBlankOnlySnoc(before, t);
    }
  }

  /** One more part in the corrected resolver: its trim is added unless blank or already there. */
  lemma OfferStepCorrected(offered: seq<string>, parts: seq<string>, i: nat)
    requires i < |parts|
    ensures var before := Distinct(NonBlankOnly(offered + Kept(parts[..i])));
      Distinct(NonBlankOnly(offered + Kept(parts[..i + 1])))
        == if IsBlank(parts[i]) || IsBlank(Trim(parts[i])) || Trim(parts[i]) in before then before
           else before + [Trim(parts[i])]
  {
    NonBlankOfferStep(offered, parts, i);
    var xs := NonBlankOnly(offered + Kept(parts[..i]));
    if IsBlank(parts[i]) || IsBlank(Trim(parts[i])) {
      assert xs + [] == xs;
    } else {
      DistinctSnoc(xs, Trim(parts[i]));
    }
  }

  /** `resolveKeys` with each trimmed key tested for blankness before it is added. */
  method ResolveKeysCorrected(envApiKey: Option<string>, configuredKeys: Option<string>) returns (keys: seq<string>)
    ensures keys == ResolvedKeysCorrected(envApiKey, configuredKeys)
  {
    keys := AddEnvKeyCorrected(envApiKey);
    if configuredKeys.Some? && !IsBlank(configuredKeys.value) {
      var parts := JavaSplit(configuredKeys.value, Comma);
      keys := AddPartsCorrected(keys, EnvOffered(envApiKey), parts);
    } else {
      assert EnvOffered(envApiKey) + [] == EnvOffered(envApiKey);
    }
  }

  /** The corrected first step: the trimmed API_KEY starts the set only when the trim is not blank. */
  method AddEnvKeyCorrected(envApiKey: Option<string>) returns (keys: seq<string>)
    ensures keys == Distinct(NonBlankOnly(EnvOffered(envApiKey)))
  {
    keys := [];
    if envApiKey.Some? && !IsBlank(envApiKey.value) {
      var t := Trim(envApiKey.value);
      assert [t] == [] + [t];
      NonBlankOnlySnoc([], t);
      DistinctSnoc([], t);
      if !IsBlank(t) {
        keys := [t];
      }
    }
  }

  /** The corrected loop over the split parts: a part is added only when its trim is not blank. */
  method AddPartsCorrected(keys0: seq<string>, ghost offered: seq<string>, parts: seq<string>) returns (keys: seq<string>)
    requires keys0 == Distinct(NonBlankOnly(offered))
    ensures keys == Distinct(NonBlankOnly(offered + Kept(parts)))
  {
    keys := keys0;
    assert offered + Kept(parts[..0]) == offered;
    for i := 0 to |parts|
      invariant keys == Distinct(NonBlankOnly(offered + Kept(parts[..i])))
    {
      OfferStepCorrected(offered, parts, i);
      var p := parts[i];
      if !IsBlank(p) {
        var t := Trim(p);
        if !IsBlank(t) && t !in keys {
          keys := keys + [t];
        }
      }
    }
    assert parts[..|parts|] == parts;
  }

  /** The corrected keys are distinct, trimmed and never blank: the offered keys minus the blank ones. */
  lemma CorrectedKeysShape(envApiKey: Option<string>, configuredKeys: Option<string>)
    ensures var r := ResolvedKeysCorrected(envApiKey, configuredKeys);
      && NoDuplicates(r)
      && (forall k :: k in r <==> k in OfferedKeys(envApiKey, configuredKeys) && !IsBlank(k))
      && (forall k :: k in r ==> IsTrimmed(k) && !IsBlank(k))
  {
    DistinctHasNoDuplicates(NonBlankOnly(OfferedKeys(envApiKey, configuredKeys)));
    OfferedKeysTrimmed(envApiKey, configuredKeys);
  }

  /** The keys as the filter receives them: a list with no null entries. */
  function Present(keys: seq<string>): (r: seq<Option<string>>)
    ensures |r| == |keys|
    ensures forall i :: 0 <= i < |r| ==> r[i] == Some(keys[i])
  {
    seq(|keys|, i requires 0 <= i < |keys| => Some(keys[i]))
  }

  lemma PresentMembers(keys: seq<string>, k: string)
    ensures Some(k) in Present(keys) <==> k in keys
  {
    if k in keys {
      var i :| 0 <= i < |keys| && keys[i] == k;
      assert Present(keys)[i] == Some(k);
    }
  }

  /**
   * The correction changes no decision of the filter: a blank presented key is
   * refused before any comparison, so the blank keys the original resolver
   * lets through can never match.
   */
  lemma CorrectionKeepsDecisions(envApiKey: Option<string>, configuredKeys: Option<string>, key: Option<string>)
    ensures IsValidKey(key, Some(Present(ResolvedKeys(envApiKey, configuredKeys))))
        == IsValidKey(key, Some(Present(ResolvedKeysCorrected(envApiKey, configuredKeys))))
  {
    if key.Some? && !IsBlank(key.value) {
      PresentMembers(ResolvedKeys(envApiKey, configuredKeys), key.value);
      PresentMembers(ResolvedKeysCorrected(envApiKey, configuredKeys), key.value);
    }
  }

  // ---------------------------------------------------------------------------
  // Registration
  // ---------------------------------------------------------------------------

  /** The part of FilterRegistrationBean the configuration sets. */
  class FilterRegistration {
    var enabled: bool
    var filter: ApiKeyAuthFilter?
    var urlPatterns: seq<string>
    var order: int

    constructor ()
      ensures enabled && filter == null && urlPatterns == [] && order == LowestPrecedence
    {
      enabled := true;
      filter := null;
      urlPatterns := [];
      order := LowestPrecedence;
    }
  }

  /**
   * The bound settings: security.apikey.enabled (default true), API_KEY and
   * security.apikey.keys (default empty) and security.apikey.whitelist
   * (default the health, Swagger UI and API-docs paths).
   */
  class ApiKeyAuthConfig {
    const enabled: bool
    const envApiKey: string
    const configuredKeys: string
    const whitelistPatterns: string

    constructor (enabled: Option<bool>, envApiKey: Option<string>, configuredKeys: Option<string>,
                 whitelistPatterns: Option<string>)
      ensures this.enabled == enabled.GetOr(true)
      ensures this.envApiKey == envApiKey.GetOr("") && this.configuredKeys == configuredKeys.GetOr("")
      ensures this.whitelistPatterns == whitelistPatterns.GetOr(DefaultWhitelist)
    {
      this.enabled := enabled.GetOr(true);
      this.envApiKey := envApiKey.GetOr("");
      this.configuredKeys := configuredKeys.GetOr("");
      this.whitelistPatterns := whitelistPatterns.GetOr(DefaultWhitelist);
    }

    /**
     * `apiKeyAuthFilter`: when disabled, a disabled registration with no
     * filter; otherwise a filter over the resolved keys and whitelist,
     * registered on every path with order 10.
     */
    method ApiKeyAuthFilterBean(pathMatches: (string, string) -> bool) returns (registration: FilterRegistration)
      ensures fresh(registration)
      ensures !enabled ==> !registration.enabled && registration.filter == null
      ensures enabled ==>
        && registration.enabled
        && registration.filter != null && fresh(registration.filter)
        && registration.filter.validApiKeys == Some(Present(ResolvedKeys(Some(envApiKey), Some(configuredKeys))))
        && registration.filter.whitelist == Some(ResolvedWhitelist(Some(whitelistPatterns)))
        && registration.filter.pathMatches == pathMatches
        && registration.urlPatterns == [AllPaths]
        && registration.order == FilterOrder
    {
      registration := new FilterRegistration();
      if !enabled {
        registration.enabled := false;
        return;
      }
      var keys := ResolveKeys(Some(envApiKey), Some(configuredKeys));
      var whitelist := ResolveWhitelist(Some(whitelistPatterns));
      var filter := new ApiKeyAuthFilter(Some(Present(keys)), Some(whitelist), pathMatches);
      registration.filter := filter;
      registration.urlPatterns := registration.urlPatterns + [AllPaths];
      registration.order := FilterOrder;
    }
  }
}
