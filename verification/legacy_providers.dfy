/** The legacy provider list behind `POST /chat`: one fixed provider per
    vendor, included when its API key is set, rotated through by a module
    level index. */
module LegacyProviders {
  import opened Wrappers
  import opened Seqs

  /** The five vendors, in the order the list is built. */
  datatype LegacyProvider = GroqLegacy | CerebrasLegacy | OpenAILegacy | OpenRouterLegacy | GeminiLegacy

  /** Position of a vendor in the fixed order. */
  function Rank(p: LegacyProvider): nat
  {
    match p
    case GroqLegacy => 0
    case CerebrasLegacy => 1
    case OpenAILegacy => 2
    case OpenRouterLegacy => 3
    case GeminiLegacy => 4
  }

  /** The API keys read from the environment; an unset key is "". */
  datatype LegacyKeys = LegacyKeys(groq: string, cerebras: string, openai: string, openrouter: string, gemini: string)

  function KeyOf(keys: LegacyKeys, p: LegacyProvider): string
  {
    match p
    case GroqLegacy => keys.groq
    case CerebrasLegacy => keys.cerebras
    case OpenAILegacy => keys.openai
    case OpenRouterLegacy => keys.openrouter
    case GeminiLegacy => keys.gemini
  }

  /** The vendors in the order the list is built. */
  const Vendors: seq<LegacyProvider> := [GroqLegacy, CerebrasLegacy, OpenAILegacy, OpenRouterLegacy, GeminiLegacy]

  /** Strictly increasing in the fixed vendor order. */
  predicate InVendorOrder(ps: seq<LegacyProvider>)
  {
    forall i, j :: 0 <= i < j < |ps| ==> Rank(ps[i]) < Rank(ps[j])
  }

  function Configured(keys: LegacyKeys): LegacyProvider -> bool
  {
    p => KeyOf(keys, p) != ""
  }

  /** The module-level list: each vendor whose key is non-empty, pushed in
      the fixed order. */
  function AvailableProviders(keys: LegacyKeys): (r: seq<LegacyProvider>)
    ensures forall p :: p in r <==> KeyOf(keys, p) != ""
    ensures InVendorOrder(r)
  {
    forall p ensures p in Filter(Vendors, Configured(keys)) <==> p in Vendors && Configured(keys)(p) {
      FilterMembership(Vendors, Configured(keys), p);
    }
    assert forall p :: p in Vendors by {
      forall p ensures p in Vendors {
        assert Vendors[Rank(p)] == p;
      }
    }
    FilterKeepsOrder(Vendors, Configured(keys));
    Filter(Vendors, Configured(keys))
  }

  /** Filtering a list in vendor order keeps it in vendor order. */
  lemma {:induction false} FilterKeepsOrder(xs: seq<LegacyProvider>, keep: LegacyProvider -> bool)
    requires InVendorOrder(xs)
    ensures InVendorOrder(Filter(xs, keep))
    decreases |xs|
  {
    if xs != [] {
      var rest := Filter(xs[1..], keep);
      FilterKeepsOrder(xs[1..], keep);
      if keep(xs[0]) {
        var r := [xs[0]] + rest;
        forall j | 0 < j < |r|
          ensures Rank(r[0]) < Rank(r[j])
        {
          assert r[j] in rest;
          var k :| 0 <= k < |xs[1..]| && xs[1..][k] == r[j];
          assert xs[k + 1] == r[j];
        }
        assert forall i, j :: 0 < i < j < |r| ==> r[i] == rest[i - 1] && r[j] == rest[j - 1];
      }
    }
  }

  /** The rotation state: the list and `currentIndex`. */
  datatype Selector = Selector(providers: seq<LegacyProvider>, currentIndex: nat)

  function InitialSelector(keys: LegacyKeys): Selector
  {
    Selector(AvailableProviders(keys), 0)
  }

  /** The index stays inside a non-empty list. */
  predicate ValidSelector(s: Selector)
  {
    |s.providers| == 0 || s.currentIndex < |s.providers|
  }

  /** `selectNextProvider`: undefined on an empty list; otherwise the
      provider at the index (undefined if the index were past the end), and
      the index moves one place, wrapping. */
  function SelectNextProvider(s: Selector): (r: (Option<LegacyProvider>, Selector))
    ensures r.1.providers == s.providers
    ensures r.0.None? <==> |s.providers| == 0 || s.currentIndex >= |s.providers|
    ensures r.0.Some? ==> r.0.value == s.providers[s.currentIndex]
    ensures ValidSelector(r.1)
    ensures ValidSelector(s) && |s.providers| > 0 ==> r.1.currentIndex == NextCursor(s.currentIndex, |s.providers|)
  {
    var n := |s.providers|;
    if n == 0 then (None, s)
    else
      var next := Selector(s.providers, (s.currentIndex + 1) % n);
      if s.currentIndex < n then
        NextCursorIsMod(s.currentIndex, n);
        (Some(s.providers[s.currentIndex]), next)
      else (None, next)
  }

  /** `getAvailableProviders`: a copy of the list. */
  function GetAvailableProviders(s: Selector): (r: seq<LegacyProvider>)
    ensures r == s.providers
  {
    s.providers[..]
  }

  /** The picks of `k` consecutive calls. */
  function Picks(s: Selector, k: nat): (r: seq<Option<LegacyProvider>>)
    ensures |r| == k
    decreases k
  {
    if k == 0 then []
    else
      var step := SelectNextProvider(s);
      [step.0] + Picks(step.1, k - 1)
  }

  lemma {:induction false} PicksFollowCursor(s: Selector, k: nat)
    requires |s.providers| > 0 && s.currentIndex < |s.providers|
    ensures forall i :: 0 <= i < k ==>
      Picks(s, k)[i] == Some(s.providers[Advance(s.currentIndex, i, |s.providers|)])
    decreases k
  {
    if k > 0 {
      var step := SelectNextProvider(s);
      PicksFollowCursor(step.1, k - 1);
      var rest := Picks(step.1, k - 1);
      assert Picks(s, k) == [step.0] + rest;
      forall i | 0 <= i < k
        ensures Picks(s, k)[i] == Some(s.providers[Advance(s.currentIndex, i, |s.providers|)])
      {
        if i > 0 {
          assert Picks(s, k)[i] == rest[i - 1];
        }
      }
    }
  }

  /** With N providers, N consecutive calls from any reachable state
      return every provider exactly once, in list order starting at the
      index. */
  lemma {:induction false} RotationVisitsEachOnce(s: Selector)
    requires ValidSelector(s) && |s.providers| > 0
    ensures var picks := Picks(s, |s.providers|);
      && (forall i :: 0 <= i < |picks| ==> picks[i] == Some(Rotate(s.providers, s.currentIndex)[i]))
      && multiset(Rotate(s.providers, s.currentIndex)) == multiset(s.providers)
  {
    PicksFollowCursor(s, |s.providers|);
    forall i | 0 <= i < |s.providers|
      ensures s.providers[Advance(s.currentIndex, i, |s.providers|)] == Rotate(s.providers, s.currentIndex)[i]
    {
      AdvanceReadsRotation(s.providers, s.currentIndex, i);
    }
    RotateIsPermutation(s.providers, s.currentIndex);
  }

  /** Starting from the module's initial state, the first round of calls
      returns the configured providers in the fixed vendor order. */
  lemma {:induction false} FirstRoundInVendorOrder(keys: LegacyKeys)
    requires AvailableProviders(keys) != []
    ensures var ps := AvailableProviders(keys);
      forall i :: 0 <= i < |ps| ==> Picks(InitialSelector(keys), |ps|)[i] == Some(ps[i])
  {
    var s := InitialSelector(keys);
    RotationVisitsEachOnce(s);
  }
}
