/** The signature weight check of `paymaster-server/src/signer_weight.rs`. */
module SignerWeight {
  import opened Prelude
  import opened Sums

  const U32_MAX: nat := 0xFFFF_FFFF

  type Weight = w: nat | w <= 0xFFFF_FFFF

  type PublicKey = k: seq<byte> | |k| == 32 witness seq(32, _ => 0)

  type Hint = seq<byte>

  datatype Signer = Signer(key: string, weight: Weight, signerType: string)

  /** The strkey decoder, of which nothing is assumed. */
  type Strkey = string -> Option<PublicKey>

  datatype Error =
    | InsufficientWeight(actual: Weight, required: Weight)
    | UnsupportedSourceAccount
    | NoMatchingSigners

  /** The hint of a signer that takes part in the check: the last four bytes of its key. */
  function SignerHint(decode: Strkey, s: Signer): Option<Hint> {
    if s.signerType != "ed25519_public_key" then None
    else
      var key := decode(s.key);
      if key.None? then None else Some(key.value[28..32])
  }

  /** The signer is an ed25519 key whose bytes 28 to 31 are the hint. */
  predicate Signs(decode: Strkey, s: Signer, hint: Hint) {
    && s.signerType == "ed25519_public_key" && decode(s.key).Some?
    && var k := decode(s.key).value; hint == [k[28], k[29], k[30], k[31]]
  }

  lemma SignerHintIs(decode: Strkey, s: Signer, hint: Hint)
    ensures SignerHint(decode, s) == Some(hint) <==> Signs(decode, s, hint)
  {
    if decode(s.key).Some? {
      var k := decode(s.key).value;
      assert k[28..32] == [k[28], k[29], k[30], k[31]];
    }
  }

  /** The weight of the first signer with a hint. */
  function WeightFor(decode: Strkey, signers: seq<Signer>, hint: Hint): Option<Weight> {
    if signers == [] then None
    else
      var n := |signers| - 1;
      var before := WeightFor(decode, signers[..n], hint);
      if before.Some? then before
      else if SignerHint(decode, signers[n]) == Some(hint) then Some(signers[n].weight)
      else None
  }

  /** What one signature contributes. */
  function Contribution(decode: Strkey, signers: seq<Signer>): Hint -> nat {
    (hint: Hint) => var w := WeightFor(decode, signers, hint); if w.Some? then w.value else 0
  }

  ghost predicate Matches(decode: Strkey, signers: seq<Signer>, hints: seq<Hint>) {
    exists hint :: hint in hints && WeightFor(decode, signers, hint).Some?
  }

  function Capped(sum: nat): Weight {
    if sum <= U32_MAX then sum else U32_MAX
  }

  /** The weight of a list of signatures: the whole sum, cut to 32 bits only at the end. */
  ghost function Total(decode: Strkey, signers: seq<Signer>, hints: seq<Hint>): Result<Weight, Error> {
    if hints == [] then Ok(0)
    else if !Matches(decode, signers, hints) then Err(NoMatchingSigners)
    else Ok(Capped(SumBy(hints, Contribution(decode, signers))))
  }

  /** Position `i` holds the first signer with a hint. */
  ghost predicate FirstSigner(decode: Strkey, signers: seq<Signer>, hint: Hint, i: nat) {
    && i < |signers| && Signs(decode, signers[i], hint)
    && forall j :: 0 <= j < i ==> !Signs(decode, signers[j], hint)
  }

  method WeightForHint(decode: Strkey, signers: seq<Signer>, hint: Hint) returns (weight: Option<Weight>)
    ensures weight == WeightFor(decode, signers, hint)
    ensures weight.Some? ==> exists i: nat :: FirstSigner(decode, signers, hint, i) && weight.value == signers[i].weight
    ensures weight.None? ==> forall i :: 0 <= i < |signers| ==> !Signs(decode, signers[i], hint)
  {
    for i := 0 to |signers|
      invariant WeightFor(decode, signers[..i], hint) == None
      invariant forall j :: 0 <= j < i ==> !Signs(decode, signers[j], hint)
    {
      assert signers[..i + 1][..i] == signers[..i];
      SignerHintIs(decode, signers[i], hint);
      if SignerHint(decode, signers[i]) == Some(hint) {
        FirstMatch(decode, signers, hint, i);
        assert FirstSigner(decode, signers, hint, i);
        return Some(signers[i].weight);
      }
    }
    assert signers[..|signers|] == signers;
    return None;
  }

  lemma {:induction false} FirstMatch(decode: Strkey, signers: seq<Signer>, hint: Hint, i: nat)
    requires i < |signers| && WeightFor(decode, signers[..i], hint) == None
    requires SignerHint(decode, signers[i]) == Some(hint)
    ensures WeightFor(decode, signers, hint) == Some(signers[i].weight)
  {
    var n := |signers| - 1;
    if i < n {
      assert signers[..n][..i] == signers[..i];
      FirstMatch(decode, signers[..n], hint, i);
    }
  }

  /** A signature counts with the weight of the first signer it fits, or not at all. */
  lemma ContributionIs(decode: Strkey, signers: seq<Signer>, hint: Hint)
    ensures forall i: nat :: FirstSigner(decode, signers, hint, i) ==>
              Contribution(decode, signers)(hint) == signers[i].weight
    ensures WeightFor(decode, signers, hint).Some? <==> Fits(decode, signers, hint)
    ensures !Fits(decode, signers, hint) ==> Contribution(decode, signers)(hint) == 0
  {
    FoundWhenThere(decode, signers, hint);
    forall s | s in signers
      ensures SignerHint(decode, s) == Some(hint) <==> Signs(decode, s, hint)
    {
      SignerHintIs(decode, s, hint);
    }
    forall i: nat | FirstSigner(decode, signers, hint, i)
      ensures Contribution(decode, signers)(hint) == signers[i].weight
    {
      NothingBefore(decode, signers, hint, i);
      FirstMatch(decode, signers, hint, i);
    }
  }

  lemma NothingBefore(decode: Strkey, signers: seq<Signer>, hint: Hint, i: nat)
    requires FirstSigner(decode, signers, hint, i)
    ensures WeightFor(decode, signers[..i], hint) == None && SignerHint(decode, signers[i]) == Some(hint)
  {
    SignerHintIs(decode, signers[i], hint);
    forall j | 0 <= j < i
      ensures SignerHint(decode, signers[..i][j]) != Some(hint)
    {
      SignerHintIs(decode, signers[j], hint);
    }
    NotAmongOthers(decode, signers[..i], hint);
  }

  /** Some signer has this hint. */
  ghost predicate Fits(decode: Strkey, signers: seq<Signer>, hint: Hint) {
    exists s :: s in signers && Signs(decode, s, hint)
  }

  lemma MatchesFit(decode: Strkey, signers: seq<Signer>, hints: seq<Hint>)
    ensures Matches(decode, signers, hints) <==> exists hint :: hint in hints && Fits(decode, signers, hint)
  {
    forall hint | hint in hints
      ensures WeightFor(decode, signers, hint).Some? <==> Fits(decode, signers, hint)
    {
      ContributionIs(decode, signers, hint);
    }
  }

  /** An error exactly when no signature fits any signer; else the sum, cut to 32 bits. */
  lemma TotalIs(decode: Strkey, signers: seq<Signer>, hints: seq<Hint>)
    ensures Total(decode, signers, hints) == Err(NoMatchingSigners) <==>
            hints != [] && forall hint :: hint in hints ==> !Fits(decode, signers, hint)
    ensures Total(decode, signers, hints).Err? ==> Total(decode, signers, hints) == Err(NoMatchingSigners)
    ensures Total(decode, signers, hints).Ok? ==>
              var sum := SumBy(hints, Contribution(decode, signers));
              Total(decode, signers, hints).value == if sum < 4_294_967_295 then sum else 4_294_967_295
  {
    MatchesFit(decode, signers, hints);
  }

  /** The saturating fold computes the capped sum. */
  method TotalSignatureWeight(decode: Strkey, signers: seq<Signer>, hints: seq<Hint>) returns (r: Result<Weight, Error>)
    ensures r == Total(decode, signers, hints)
    ensures r == Err(NoMatchingSigners) <==>
            hints != [] && forall hint :: hint in hints ==> !Fits(decode, signers, hint)
    ensures r.Err? ==> r == Err(NoMatchingSigners)
    ensures r.Ok? ==>
              var sum := SumBy(hints, Contribution(decode, signers));
              r.value == if sum < 4_294_967_295 then sum else 4_294_967_295
  {
    TotalIs(decode, signers, hints);
    if |hints| == 0 {
      return Ok(0);
    }
    r := SumWeights(decode, signers, hints);
  }

  /** What the loop has after the signatures `done`. */
  ghost predicate Counted(decode: Strkey, signers: seq<Signer>, done: seq<Hint>, total: Weight, matched: bool) {
    && total == Capped(SumBy(done, Contribution(decode, signers)))
    && (matched <==> Matches(decode, signers, done))
  }

  lemma CountOne(decode: Strkey, signers: seq<Signer>, done: seq<Hint>, hint: Hint, total: Weight, matched: bool,
                 weight: Option<Weight>)
    requires Counted(decode, signers, done, total, matched) && weight == WeightFor(decode, signers, hint)
    ensures Counted(decode, signers, done + [hint], if weight.Some? then Capped(total + weight.value) else total,
                    matched || weight.Some?)
  {
    SumAppend(done, hint, Contribution(decode, signers));
    assert forall h :: h in done + [hint] <==> h in done || h == hint;
  }

  /** The loop over the signatures, of which there is at least one. */
  method SumWeights(decode: Strkey, signers: seq<Signer>, hints: seq<Hint>) returns (r: Result<Weight, Error>)
    requires hints != []
    ensures r == Total(decode, signers, hints)
  {
    var total: Weight := 0;
    var matched := false;
    for i := 0 to |hints|
      invariant Counted(decode, signers, hints[..i], total, matched)
    {
      assert hints[..i + 1] == hints[..i] + [hints[i]];
      var weight := WeightForHint(decode, signers, hints[i]);
      CountOne(decode, signers, hints[..i], hints[i], total, matched, weight);
      if weight.Some? {
        matched := true;
        total := if total + weight.value <= U32_MAX then total + weight.value else U32_MAX;
      }
    }
    assert hints[..|hints|] == hints;
    return if matched then Ok(total) else Err(NoMatchingSigners);
  }

  method ValidateInnerEnvelope(decode: Strkey, signers: seq<Signer>, required: Weight, hints: seq<Hint>)
    returns (r: Result<(), Error>)
    ensures r == Verdict(decode, signers, required, hints)
    ensures r == Err(NoMatchingSigners) <==>
            hints != [] && forall hint :: hint in hints ==> !Fits(decode, signers, hint)
    ensures r.Err? ==> r.error.NoMatchingSigners? || (r.error.InsufficientWeight? && r.error.required == required)
    ensures r.Err? && r.error.InsufficientWeight? ==>
              r.error.actual == SumBy(hints, Contribution(decode, signers)) < required
    ensures r.Ok? ==> SumBy(hints, Contribution(decode, signers)) >= required
  {
    var actual := TotalSignatureWeight(decode, signers, hints);
    if actual.Err? {
      return Err(actual.error);
    }
    if actual.value < required {
      return Err(InsufficientWeight(actual.value, required));
    }
    return Ok(());
  }

  ghost function Verdict(decode: Strkey, signers: seq<Signer>, required: Weight, hints: seq<Hint>): Result<(), Error> {
    var actual := Total(decode, signers, hints);
    if actual.Err? then Err(actual.error)
    else if actual.value < required then Err(InsufficientWeight(actual.value, required))
    else Ok(())
  }

  // ------------------------------------------------------------------- meaning

  /** Saturation never changes the verdict: it is that of the exact sum. */
  lemma VerdictOfExactSum(decode: Strkey, signers: seq<Signer>, required: Weight, hints: seq<Hint>)
    ensures Verdict(decode, signers, required, hints).Ok? <==>
            && (hints == [] || exists hint :: hint in hints && Fits(decode, signers, hint))
            && SumBy(hints, Contribution(decode, signers)) >= required
  {
    MatchesFit(decode, signers, hints);
  }

  /** The weight does not depend on the order of the signatures. */
  lemma SignatureOrderIrrelevant(decode: Strkey, signers: seq<Signer>, a: seq<Hint>, b: seq<Hint>)
    requires multiset(a) == multiset(b)
    ensures Total(decode, signers, a) == Total(decode, signers, b)
  {
    SumPermutation(a, b, Contribution(decode, signers));
    assert |multiset(a)| == |a| && |multiset(b)| == |b|;
    assert forall hint :: hint in a <==> hint in multiset(b);
  }

  /** No two signers that take part in the check share a hint. */
  ghost predicate DistinctSigners(decode: Strkey, signers: seq<Signer>) {
    forall i, j :: 0 <= i < j < |signers| && SignerHint(decode, signers[i]).Some? ==>
      SignerHint(decode, signers[i]) != SignerHint(decode, signers[j])
  }

  /** A signer's weight as often as its hint is among the signatures. */
  function CountedWeight(decode: Strkey, hints: seq<Hint>): Signer -> nat {
    (s: Signer) =>
      var hint := SignerHint(decode, s);
      if hint.Some? then multiset(hints)[hint.value] * s.weight else 0
  }

  function WeightOf(): Signer -> nat {
    (s: Signer) => s.weight
  }

  function OneSigner(decode: Strkey, s: Signer): Hint -> nat {
    (hint: Hint) => if SignerHint(decode, s) == Some(hint) then s.weight else 0
  }

  lemma {:induction false} NotAmongOthers(decode: Strkey, signers: seq<Signer>, hint: Hint)
    requires forall i :: 0 <= i < |signers| ==> SignerHint(decode, signers[i]) != Some(hint)
    ensures WeightFor(decode, signers, hint) == None
  {
    if signers == [] {
    } else {
      NotAmongOthers(decode, signers[..|signers| - 1], hint);
    }
  }

  lemma ContributionSplits(decode: Strkey, signers: seq<Signer>, hint: Hint)
    requires signers != [] && DistinctSigners(decode, signers)
    ensures var n := |signers| - 1;
            Contribution(decode, signers)(hint) ==
            Contribution(decode, signers[..n])(hint) + OneSigner(decode, signers[n])(hint)
  {
    var n := |signers| - 1;
    if SignerHint(decode, signers[n]) == Some(hint) {
      NotAmongOthers(decode, signers[..n], hint);
    }
  }

  lemma {:induction false} SumSplits(hints: seq<Hint>, f: Hint -> nat, g: Hint -> nat, h: Hint -> nat)
    requires forall hint :: f(hint) == g(hint) + h(hint)
    ensures SumBy(hints, f) == SumBy(hints, g) + SumBy(hints, h)
  {
    if hints == [] {
    } else {
      SumSplits(hints[..|hints| - 1], f, g, h);
    }
  }

  lemma OneMoreTime(c: nat, w: nat)
    ensures (c + 1) * w == c * w + w
  {
  }

  lemma {:induction false} OneSignerSum(decode: Strkey, s: Signer, hints: seq<Hint>)
    ensures SumBy(hints, OneSigner(decode, s)) == CountedWeight(decode, hints)(s)
  {
    if hints == [] {
    } else {
      var init, last := hints[..|hints| - 1], hints[|hints| - 1];
      OneSignerSum(decode, s, init);
      assert hints == init + [last];
      var hint := SignerHint(decode, s);
      if hint == Some(last) {
        OneMoreTime(multiset(init)[last], s.weight);
      }
    }
  }

  /** Exchanging the sums: over the signatures, or over the signers. */
  lemma {:induction false} SumOverSigners(decode: Strkey, signers: seq<Signer>, hints: seq<Hint>)
    requires DistinctSigners(decode, signers)
    ensures SumBy(hints, Contribution(decode, signers)) == SumBy(signers, CountedWeight(decode, hints))
  {
    if signers == [] {
      NothingContributes(decode, hints);
    } else {
      var n := |signers| - 1;
      SumOverSigners(decode, signers[..n], hints);
      forall hint
        ensures Contribution(decode, signers)(hint) ==
                Contribution(decode, signers[..n])(hint) + OneSigner(decode, signers[n])(hint)
      {
        ContributionSplits(decode, signers, hint);
      }
      SumSplits(hints, Contribution(decode, signers), Contribution(decode, signers[..n]),
                OneSigner(decode, signers[n]));
      OneSignerSum(decode, signers[n], hints);
    }
  }

  lemma {:induction false} NothingContributes(decode: Strkey, hints: seq<Hint>)
    ensures SumBy(hints, Contribution(decode, [])) == 0
  {
    if hints == [] {
    } else {
      NothingContributes(decode, hints[..|hints| - 1]);
    }
  }

  // ------------------------------------------------------ order of the signers

  function HasHint(decode: Strkey, hint: Hint): Signer -> nat {
    (s: Signer) => if SignerHint(decode, s) == Some(hint) then 1 else 0
  }

  lemma {:induction false} DistinctHaveOne(decode: Strkey, signers: seq<Signer>, hint: Hint)
    requires DistinctSigners(decode, signers)
    ensures SumBy(signers, HasHint(decode, hint)) <= 1
  {
    if signers == [] {
    } else {
      var n := |signers| - 1;
      DistinctHaveOne(decode, signers[..n], hint);
      if SignerHint(decode, signers[n]) == Some(hint) { NoneHave(decode, signers[..n], hint); }
    }
  }

  lemma {:induction false} NoneHave(decode: Strkey, signers: seq<Signer>, hint: Hint)
    requires forall i :: 0 <= i < |signers| ==> SignerHint(decode, signers[i]) != Some(hint)
    ensures SumBy(signers, HasHint(decode, hint)) == 0
  {
    if signers == [] {
    } else {
      NoneHave(decode, signers[..|signers| - 1], hint);
    }
  }

  lemma {:induction false} TwoHave(decode: Strkey, signers: seq<Signer>, i: nat, j: nat, hint: Hint)
    requires i < j < |signers| && SignerHint(decode, signers[i]) == SignerHint(decode, signers[j]) == Some(hint)
    ensures SumBy(signers, HasHint(decode, hint)) >= 2
    decreases |signers|
  {
    var n := |signers| - 1;
    if j == n {
      SumUpdate(signers[..n], i, signers[i], HasHint(decode, hint));
    } else {
      TwoHave(decode, signers[..n], i, j, hint);
    }
  }

  /** Distinctness is no matter of order. */
  lemma DistinctAnyOrder(decode: Strkey, a: seq<Signer>, b: seq<Signer>)
    requires multiset(a) == multiset(b) && DistinctSigners(decode, a)
    ensures DistinctSigners(decode, b)
  {
    forall i, j | 0 <= i < j < |b| && SignerHint(decode, b[i]).Some?
      ensures SignerHint(decode, b[i]) != SignerHint(decode, b[j])
    {
      var hint := SignerHint(decode, b[i]).value;
      DistinctHaveOne(decode, a, hint);
      SumPermutation(a, b, HasHint(decode, hint));
      if SignerHint(decode, b[j]) == Some(hint) { TwoHave(decode, b, i, j, hint); }
    }
  }

  lemma {:induction false} FoundWhenThere(decode: Strkey, signers: seq<Signer>, hint: Hint)
    ensures WeightFor(decode, signers, hint).Some? <==> exists s :: s in signers && SignerHint(decode, s) == Some(hint)
  {
    if signers == [] {
    } else {
      var n := |signers| - 1;
      FoundWhenThere(decode, signers[..n], hint);
      assert signers == signers[..n] + [signers[n]];
    }
  }

  lemma MatchesAnyOrder(decode: Strkey, a: seq<Signer>, b: seq<Signer>, hints: seq<Hint>)
    requires multiset(a) == multiset(b)
    ensures Matches(decode, a, hints) <==> Matches(decode, b, hints)
  {
    assert forall s :: s in a <==> s in multiset(b);
    forall hint | hint in hints
      ensures WeightFor(decode, a, hint).Some? <==> WeightFor(decode, b, hint).Some?
    {
      FoundWhenThere(decode, a, hint);
      FoundWhenThere(decode, b, hint);
    }
  }

  /** With distinct signer hints the whole result does not depend on the order of the signers either. */
  lemma SignerOrderIrrelevant(decode: Strkey, a: seq<Signer>, b: seq<Signer>, hints: seq<Hint>)
    requires multiset(a) == multiset(b) && DistinctSigners(decode, a)
    ensures Total(decode, a, hints) == Total(decode, b, hints)
  {
    DistinctAnyOrder(decode, a, b);
    SumOverSigners(decode, a, hints);
    SumOverSigners(decode, b, hints);
    SumPermutation(a, b, CountedWeight(decode, hints));
    MatchesAnyOrder(decode, a, b, hints);
  }

  // -------------------------------------------------- each matched signer once

  ghost predicate DistinctHints(hints: seq<Hint>) {
    forall i, j :: 0 <= i < j < |hints| ==> hints[i] != hints[j]
  }

  lemma {:induction false} CountedOnce(hints: seq<Hint>, hint: Hint)
    requires DistinctHints(hints)
    ensures multiset(hints)[hint] == if hint in hints then 1 else 0
  {
    if hints == [] {
    } else {
      var init, last := hints[..|hints| - 1], hints[|hints| - 1];
      CountedOnce(init, hint);
      assert hints == init + [last];
      assert last !in init;
    }
  }

  /** The signers that some signature matches. */
  function MatchedWeight(decode: Strkey, hints: seq<Hint>): Signer -> nat {
    (s: Signer) =>
      var hint := SignerHint(decode, s);
      if hint.Some? && hint.value in hints then s.weight else 0
  }

  /** No signer that counts for something has more than one signature. */
  ghost predicate SignedOnce(decode: Strkey, signers: seq<Signer>, hints: seq<Hint>) {
    forall s :: s in signers && s.weight > 0 && SignerHint(decode, s).Some? ==>
      multiset(hints)[SignerHint(decode, s).value] <= 1
  }

  lemma TimesAtLeastOnce(c: nat, w: nat)
    ensures c == 0 ==> c * w == 0
    ensures c >= 1 ==> c * w >= w && (c * w == w <==> w == 0 || c == 1)
  {
    if c >= 2 {
      assert c * w == w + (c - 1) * w;
      if w > 0 { assert (c - 1) * w > 0; }
    }
  }

  lemma CountedAtLeast(decode: Strkey, hints: seq<Hint>, s: Signer)
    ensures CountedWeight(decode, hints)(s) >= MatchedWeight(decode, hints)(s)
    ensures CountedWeight(decode, hints)(s) == MatchedWeight(decode, hints)(s) <==>
            (s.weight > 0 && SignerHint(decode, s).Some? ==> multiset(hints)[SignerHint(decode, s).value] <= 1)
  {
    var hint := SignerHint(decode, s);
    if hint.Some? {
      var c: nat := multiset(hints)[hint.value];
      assert hint.value in hints <==> c > 0;
      TimesAtLeastOnce(c, s.weight);
    }
  }

  /**
   With distinct signer hints the sum is the weight of the set of matched signers if and only if no
   signer of positive weight is matched by two signatures. Every further signature counts again.
   */
  lemma MatchedSetExactly(decode: Strkey, signers: seq<Signer>, hints: seq<Hint>)
    requires DistinctSigners(decode, signers)
    ensures SumBy(hints, Contribution(decode, signers)) >= SumBy(signers, MatchedWeight(decode, hints))
    ensures SumBy(hints, Contribution(decode, signers)) == SumBy(signers, MatchedWeight(decode, hints)) <==>
            SignedOnce(decode, signers, hints)
  {
    SumOverSigners(decode, signers, hints);
    forall s
      ensures CountedWeight(decode, hints)(s) >= MatchedWeight(decode, hints)(s)
      ensures CountedWeight(decode, hints)(s) == MatchedWeight(decode, hints)(s) <==>
              (s.weight > 0 && SignerHint(decode, s).Some? ==> multiset(hints)[SignerHint(decode, s).value] <= 1)
    {
      CountedAtLeast(decode, hints, s);
    }
    SumMonotone(signers, MatchedWeight(decode, hints), CountedWeight(decode, hints));
    SumsAgree(signers, CountedWeight(decode, hints), MatchedWeight(decode, hints));
  }

  /**
   With distinct hints on both sides the weight is that of the set of matched signers, at most the
   account's total.
   */
  lemma WeightOfMatchedSigners(decode: Strkey, signers: seq<Signer>, hints: seq<Hint>)
    requires DistinctSigners(decode, signers) && DistinctHints(hints)
    ensures SumBy(hints, Contribution(decode, signers)) == SumBy(signers, MatchedWeight(decode, hints))
    ensures SumBy(signers, MatchedWeight(decode, hints)) <= SumBy(signers, WeightOf())
  {
    forall s | s in signers && s.weight > 0 && SignerHint(decode, s).Some?
      ensures multiset(hints)[SignerHint(decode, s).value] <= 1
    {
      CountedOnce(hints, SignerHint(decode, s).value);
    }
    MatchedSetExactly(decode, signers, hints);
    SumMonotone(signers, MatchedWeight(decode, hints), WeightOf());
  }

  /** One signature given `k` times counts `k` times. */
  lemma {:induction false} RepeatedSignature(decode: Strkey, signers: seq<Signer>, hint: Hint, k: nat)
    requires WeightFor(decode, signers, hint).Some?
    ensures SumBy(seq(k, _ => hint), Contribution(decode, signers)) == k * WeightFor(decode, signers, hint).value
  {
    if k == 0 {
    } else {
      var hints := seq(k, _ => hint);
      assert hints[..k - 1] == seq(k - 1, _ => hint);
      RepeatedSignature(decode, signers, hint, k - 1);
      var w := WeightFor(decode, signers, hint).value;
      assert (k - 1) * w + w == k * w;
    }
  }
}
