/** The roster of a paired study: which trials are frozen, and which receipts answer to them. */
module Study {
  import opened Text
  import opened Lists

  datatype Arm = Base | FeatureGrpo

  datatype Measure = PassAtOne | BestOfK

  datatype Trial = Trial(id: string, task: string, arm: Arm, seed: nat, episode: nat, caseSeed: int)

  datatype Plan = Plan(
    tasks: seq<string>, seeds: seq<nat>, episodes: nat, measure: Measure,
    trials: seq<Trial>, comparisons: seq<(Arm, Arm)>)

  datatype Slot = Slot(task: string, arm: Arm, seed: nat, episode: nat)

  /** What is repeated in both arms: one episode of a task under a policy seed. */
  datatype Round = Round(task: string, seed: nat, episode: nat)

  /** What one value of the metric is computed from. */
  datatype Metered = Metered(task: string, seed: nat, arm: Arm)

  function SlotOf(t: Trial): Slot {
    Slot(t.task, t.arm, t.seed, t.episode)
  }

  function RoundOf(t: Trial): Round {
    Round(t.task, t.seed, t.episode)
  }

  function UnitOf(t: Trial): Metered {
    Metered(t.task, t.seed, t.arm)
  }

  function IdOf(t: Trial): string {
    t.id
  }

  function Slots(trials: seq<Trial>): set<Slot> {
    set t <- trials :: SlotOf(t)
  }

  function Rounds(trials: seq<Trial>): set<Round> {
    set t <- trials :: RoundOf(t)
  }

  /** The complete frozen product of tasks, arms, seeds and episodes. */
  function Product(p: Plan): set<Slot> {
    set t <- p.tasks, a <- {Base, FeatureGrpo}, s <- p.seeds, e: nat | e < p.episodes :: Slot(t, a, s, e)
  }

  /** What holds of every preregistration that is an object at all. */
  ghost predicate Formed(p: Plan) {
    && p.trials != [] && p.comparisons != [] && p.episodes > 0
    && Distinct(Mapped(IdOf, p.trials))
    && (p.measure.PassAtOne? ==> p.episodes == 1)
  }

  /** The case seed of a trial depends on its round alone. */
  predicate Paired(trials: seq<Trial>) {
    forall t, u | t in trials && u in trials :: RoundOf(t) == RoundOf(u) ==> t.caseSeed == u.caseSeed
  }

  /** The seed the policy samples with; `derive` is the digest of a round that best-of-k studies use. */
  function SamplingSeed(p: Plan, derive: Round -> int, t: Trial): int {
    if p.measure.PassAtOne? then t.seed else derive(RoundOf(t))
  }

  /** No two rounds share a derived seed. */
  predicate Spread(trials: seq<Trial>, derive: Round -> int) {
    forall t, u | t in trials && u in trials :: derive(RoundOf(t)) == derive(RoundOf(u)) ==> RoundOf(t) == RoundOf(u)
  }

  /**
   The roster is the whole product, once, with one case seed for both arms; best-of-k episodes have
   different sampling seeds; and only the two arms are compared.
   */
  predicate Accepted(p: Plan, derive: Round -> int) {
    && Slots(p.trials) == Product(p) && |Slots(p.trials)| == |p.trials|
    && (p.measure.BestOfK? ==> Spread(p.trials, derive))
    && Paired(p.trials)
    && forall c <- p.comparisons :: c.0 != c.1
  }

  lemma {:induction false} ImageSize(derive: Round -> int, rounds: set<Round>)
    ensures |set r <- rounds :: derive(r)| <= |rounds|
    ensures |set r <- rounds :: derive(r)| == |rounds| <==>
            forall r, q | r in rounds && q in rounds :: derive(r) == derive(q) ==> r == q
  {
    if rounds == {} {
    } else {
      var x :| x in rounds;
      var rest := rounds - {x};
      ImageSize(derive, rest);
      assert rounds == rest + {x};
      assert (set r <- rounds :: derive(r)) == (set r <- rest :: derive(r)) + {derive(x)};
    }
  }

  /** Counting the different derived seeds tells whether any two rounds collide. */
  lemma SpreadIsCounted(trials: seq<Trial>, derive: Round -> int)
    ensures Spread(trials, derive) <==> |set r <- Rounds(trials) :: derive(r)| == |Rounds(trials)|
  {
    ImageSize(derive, Rounds(trials));
    if forall r, q | r in Rounds(trials) && q in Rounds(trials) :: derive(r) == derive(q) ==> r == q {
      forall t, u | t in trials && u in trials && derive(RoundOf(t)) == derive(RoundOf(u))
        ensures RoundOf(t) == RoundOf(u)
      {
        assert RoundOf(t) in Rounds(trials) && RoundOf(u) in Rounds(trials);
      }
    }
  }

  /** The checks on the trials of a preregistration. */
  method Validate(p: Plan, derive: Round -> int) returns (ok: bool)
    ensures ok <==> Accepted(p, derive)
  {
    if Slots(p.trials) != Product(p) || |Slots(p.trials)| != |p.trials| {
      return false;
    }
    if p.measure.BestOfK? {
      var rounds := Rounds(p.trials);
      SpreadIsCounted(p.trials, derive);
      if |set r <- rounds :: derive(r)| != |rounds| {
        return false;
      }
    }
    var paired := CheckPairs(p.trials);
    return paired && forall c <- p.comparisons :: c.0 != c.1;
  }

  /** Every known case seed is that of some trial, and every trial has its own. */
  ghost predicate KnowsCases(known: map<Round, int>, trials: seq<Trial>) {
    && (forall t <- trials :: RoundOf(t) in known && known[RoundOf(t)] == t.caseSeed)
    && (forall r <- known :: exists t <- trials :: RoundOf(t) == r && t.caseSeed == known[r])
  }

  lemma KnowsNext(known: map<Round, int>, trials: seq<Trial>, t: Trial)
    requires KnowsCases(known, trials)
    requires RoundOf(t) in known ==> known[RoundOf(t)] == t.caseSeed
    ensures KnowsCases(known[RoundOf(t) := t.caseSeed], trials + [t])
  {
    var next := known[RoundOf(t) := t.caseSeed];
    forall r <- next
      ensures exists u <- trials + [t] :: RoundOf(u) == r && u.caseSeed == next[r]
    {
      if r == RoundOf(t) {
        assert t in trials + [t];
      } else {
        var u :| u in trials && RoundOf(u) == r && u.caseSeed == known[r];
        assert u in trials + [t];
      }
    }
  }

  method CheckPairs(trials: seq<Trial>) returns (ok: bool)
    ensures ok <==> Paired(trials)
  {
    var known: map<Round, int> := map[];
    for i := 0 to |trials|
      invariant KnowsCases(known, trials[..i])
    {
      var t := trials[i];
      PrefixNext(trials, i);
      if RoundOf(t) in known && known[RoundOf(t)] != t.caseSeed {
        var u :| u in trials[..i] && RoundOf(u) == RoundOf(t) && u.caseSeed == known[RoundOf(t)];
        assert u in trials && t in trials;
        return false;
      }
      KnowsNext(known, trials[..i], t);
      known := known[RoundOf(t) := t.caseSeed];
    }
    assert trials[..|trials|] == trials;
    return true;
  }

  // ---------- every unit has all its episodes ----------

  function EpisodesOf(trials: seq<Trial>, u: Metered): seq<nat> {
    if trials == [] then []
    else
      (if UnitOf(trials[0]) == u then [trials[0].episode] else []) + EpisodesOf(trials[1..], u)
  }

  lemma {:induction false} EpisodesMeaning(trials: seq<Trial>, u: Metered)
    ensures forall e :: e in EpisodesOf(trials, u) <==> Slot(u.task, u.arm, u.seed, e) in Mapped(SlotOf, trials)
    ensures Distinct(Mapped(SlotOf, trials)) ==> Distinct(EpisodesOf(trials, u))
  {
    if trials == [] {
    } else {
      var rest, slots := trials[1..], Mapped(SlotOf, trials);
      EpisodesMeaning(rest, u);
      assert slots == [SlotOf(trials[0])] + Mapped(SlotOf, rest);
      assert slots[1..] == Mapped(SlotOf, rest);
      DistinctFirst(slots);
      if UnitOf(trials[0]) == u {
        assert EpisodesOf(trials, u)[1..] == EpisodesOf(rest, u);
        DistinctFirst(EpisodesOf(trials, u));
      } else {
        assert EpisodesOf(trials, u) == EpisodesOf(rest, u);
      }
    }
  }

  function Below(k: nat): set<nat> {
    if k == 0 then {} else Below(k - 1) + {k - 1}
  }

  lemma {:induction false} BelowMeaning(k: nat)
    ensures |Below(k)| == k && forall e: nat :: e in Below(k) <==> e < k
  {
    if k == 0 {
    } else {
      BelowMeaning(k - 1);
    }
  }

  lemma ProductMeaning(p: Plan, s: Slot)
    ensures s in Product(p) <==> s.task in p.tasks && s.seed in p.seeds && s.episode < p.episodes
  {
    assert s.arm.Base? || s.arm.FeatureGrpo?;
    assert s == Slot(s.task, s.arm, s.seed, s.episode);
  }

  ghost predicate Planned(p: Plan, u: Metered) {
    u.task in p.tasks && u.seed in p.seeds
  }

  lemma SlotElements(trials: seq<Trial>)
    ensures Elements(Mapped(SlotOf, trials)) == Slots(trials)
  {
    MappedElements(SlotOf, trials);
  }

  /** In an accepted roster every planned unit has exactly its episodes, and no other unit has any. */
  lemma UnitsAreComplete(p: Plan, derive: Round -> int, u: Metered)
    requires Accepted(p, derive)
    ensures |EpisodesOf(p.trials, u)| == if Planned(p, u) then p.episodes else 0
    ensures Distinct(EpisodesOf(p.trials, u))
  {
    var slots, episodes := Mapped(SlotOf, p.trials), EpisodesOf(p.trials, u);
    SlotElements(p.trials);
    DistinctSize(slots);
    EpisodesMeaning(p.trials, u);
    DistinctSize(episodes);
    BelowMeaning(p.episodes);
    assert Elements(episodes) == if Planned(p, u) then Below(p.episodes) else {} by {
      forall e: nat
        ensures e in episodes <==> Planned(p, u) && e < p.episodes
      {
        ProductMeaning(p, Slot(u.task, u.arm, u.seed, e));
        assert e in episodes <==> Slot(u.task, u.arm, u.seed, e) in Elements(slots);
      }
    }
  }

  /**
   In an accepted roster every trial has its counterpart in the other arm, on the same case and
   sampled with the same seed, and it is the only one of that arm in the round.
   */
  lemma CounterpartExists(p: Plan, derive: Round -> int, t: Trial)
    requires Accepted(p, derive) && t in p.trials
    ensures exists u <- p.trials :: u.arm != t.arm && RoundOf(u) == RoundOf(t)
    ensures forall u <- p.trials | RoundOf(u) == RoundOf(t) ::
              u.caseSeed == t.caseSeed && SamplingSeed(p, derive, u) == SamplingSeed(p, derive, t)
    ensures forall u <- p.trials | RoundOf(u) == RoundOf(t) && u.arm == t.arm :: u == t
  {
    var other := Slot(t.task, if t.arm.Base? then FeatureGrpo else Base, t.seed, t.episode);
    assert SlotOf(t) in Slots(p.trials);
    ProductMeaning(p, SlotOf(t));
    ProductMeaning(p, other);
    var u :| u in p.trials && SlotOf(u) == other;
    forall u <- p.trials | RoundOf(u) == RoundOf(t) && u.arm == t.arm
      ensures u == t
    {
      SlotElements(p.trials);
      DistinctSize(Mapped(SlotOf, p.trials));
      var i :| 0 <= i < |p.trials| && p.trials[i] == t;
      var j :| 0 <= j < |p.trials| && p.trials[j] == u;
      assert Mapped(SlotOf, p.trials)[i] == Mapped(SlotOf, p.trials)[j];
    }
  }

  /** Trials of one arm share a sampling seed only in `pass_at_1`, and there only under the same policy seed. */
  lemma SeedsAreSpread(p: Plan, derive: Round -> int, t: Trial, u: Trial)
    requires Accepted(p, derive) && t in p.trials && u in p.trials && t.arm == u.arm
    ensures SamplingSeed(p, derive, t) == SamplingSeed(p, derive, u) <==>
            if p.measure.BestOfK? then t == u else t.seed == u.seed
  {
    if RoundOf(t) == RoundOf(u) {
      CounterpartExists(p, derive, t);
    }
  }

  // ---------- the receipts of a roster ----------

  /** What was observed of a trial; `resolved` is absent when it was not measured. */
  datatype Receipt = Receipt(
    id: string, task: string, arm: Arm, seed: nat, caseSeed: int, family: string, resolved: Option<bool>)

  datatype Outcome = Outcome(resolved: Option<bool>, family: string)

  type Ledger = map<string, Outcome>

  function ReceiptId(r: Receipt): string {
    r.id
  }

  /** The receipt is that of the trial, and names the family its task was frozen with. */
  predicate Fits(r: Receipt, t: Trial, families: map<string, string>) {
    && r.id == t.id && r.task == t.task && r.arm == t.arm && r.seed == t.seed && r.caseSeed == t.caseSeed
    && t.task in families && r.family == families[t.task]
  }

  /** One receipt for each trial, and each of them fits. */
  ghost predicate Answered(trials: seq<Trial>, receipts: seq<Receipt>, families: map<string, string>) {
    && |receipts| == |trials| && Distinct(Mapped(ReceiptId, receipts))
    && forall r <- receipts :: exists t <- trials :: Fits(r, t, families)
  }

  ghost predicate Records(ledger: Ledger, trials: seq<Trial>, receipts: seq<Receipt>, families: map<string, string>) {
    forall t <- trials ::
      && t.id in ledger
      && exists r <- receipts :: Fits(r, t, families) && ledger[t.id] == Outcome(r.resolved, r.family)
  }

  lemma TrialById(trials: seq<Trial>, t: Trial, u: Trial)
    requires Distinct(Mapped(IdOf, trials)) && t in trials && u in trials && t.id == u.id
    ensures t == u
  {
    var i :| 0 <= i < |trials| && trials[i] == t;
    var j :| 0 <= j < |trials| && trials[j] == u;
    assert IdOf(t) == IdOf(u);
    assert Mapped(IdOf, trials)[i] == Mapped(IdOf, trials)[j];
  }

  lemma ReceiptById(receipts: seq<Receipt>, i: nat, j: nat)
    requires Distinct(Mapped(ReceiptId, receipts)) && i < |receipts| && j < |receipts|
    requires receipts[i].id == receipts[j].id
    ensures i == j
  {
    assert Mapped(ReceiptId, receipts)[i] == Mapped(ReceiptId, receipts)[j];
  }

  /** A set of as many identifiers as trials, all of them of trials, holds those of all trials. */
  lemma AllIds(trials: seq<Trial>, receipts: seq<Receipt>)
    requires Distinct(Mapped(IdOf, trials)) && Distinct(Mapped(ReceiptId, receipts)) && |trials| == |receipts|
    requires forall r <- receipts :: exists t <- trials :: t.id == r.id
    ensures Elements(Mapped(ReceiptId, receipts)) == Elements(Mapped(IdOf, trials))
  {
    var some, all := Elements(Mapped(ReceiptId, receipts)), Elements(Mapped(IdOf, trials));
    DistinctSize(Mapped(IdOf, trials));
    DistinctSize(Mapped(ReceiptId, receipts));
    MappedElements(IdOf, trials);
    MappedElements(ReceiptId, receipts);
    forall id <- some
      ensures id in all
    {
      var r :| r in receipts && r.id == id;
      var t :| t in trials && t.id == r.id;
      assert IdOf(t) == id;
    }
    SameSize(some, all);
  }

  lemma SameSize<T>(s: set<T>, t: set<T>)
    requires s <= t && |s| == |t|
    ensures s == t
  {
    assert |t - s| == |t| - |s|;
  }

  /** Nobody but the trials is in `roster`, each under its identifier. */
  ghost predicate Enrols(roster: map<string, Trial>, trials: seq<Trial>) {
    && roster.Keys == Elements(Mapped(IdOf, trials))
    && forall id <- roster :: roster[id] in trials && roster[id].id == id
  }

  lemma AnsweredFits(
    roster: map<string, Trial>, trials: seq<Trial>, receipts: seq<Receipt>, families: map<string, string>)
    requires Distinct(Mapped(IdOf, trials)) && Enrols(roster, trials) && Answered(trials, receipts, families)
    ensures Elements(Mapped(ReceiptId, receipts)) == roster.Keys
    ensures forall r <- receipts :: r.id in roster && Fits(r, roster[r.id], families)
  {
    AllIds(trials, receipts);
    forall r <- receipts
      ensures r.id in roster && Fits(r, roster[r.id], families)
    {
      var t :| t in trials && Fits(r, t, families);
      MappedElements(IdOf, trials);
      assert IdOf(t) == r.id;
      TrialById(trials, t, roster[r.id]);
    }
  }

  lemma GatheredRecords(
    ledger: Ledger, roster: map<string, Trial>, trials: seq<Trial>, receipts: seq<Receipt>,
    families: map<string, string>)
    requires Distinct(Mapped(IdOf, trials)) && Enrols(roster, trials)
    requires Elements(Mapped(ReceiptId, receipts)) == roster.Keys && Gathered(ledger, receipts, roster, families)
    ensures Records(ledger, trials, receipts, families)
  {
    forall t <- trials
      ensures t.id in ledger
      ensures exists r <- receipts :: Fits(r, t, families) && ledger[t.id] == Outcome(r.resolved, r.family)
    {
      MappedElements(IdOf, trials);
      MappedElements(ReceiptId, receipts);
      assert IdOf(t) == t.id;
      assert t.id in Elements(Mapped(ReceiptId, receipts));
      var r :| r in receipts && ReceiptId(r) == t.id;
      TrialById(trials, t, roster[r.id]);
    }
  }

  lemma IdsOfReceipts(receipts: seq<Receipt>)
    ensures (set r <- receipts :: r.id) == Elements(Mapped(ReceiptId, receipts))
  {
    MappedElements(ReceiptId, receipts);
    forall id
      ensures id in (set r <- receipts :: r.id) <==> id in Elements(Mapped(ReceiptId, receipts))
    {
      if r :| r in receipts && r.id == id {
        assert ReceiptId(r) == id;
      }
    }
  }

  /** The receipts of a complete ledger, by trial; refused if one is missing, repeated or differs from its trial. */
  method Observe(trials: seq<Trial>, receipts: seq<Receipt>, families: map<string, string>)
    returns (ledger: Option<Ledger>)
    requires Distinct(Mapped(IdOf, trials))
    ensures ledger.Some? <==> Answered(trials, receipts, families)
    ensures ledger.Some? ==> Records(ledger.value, trials, receipts, families)
  {
    var roster := Assignments(trials);
    var ids := set r <- receipts :: r.id;
    IdsOfReceipts(receipts);
    DistinctSize(Mapped(ReceiptId, receipts));
    if Answered(trials, receipts, families) {
      AnsweredFits(roster, trials, receipts, families);
    }
    if |receipts| != |trials| || |ids| != |receipts| || ids != roster.Keys {
      return None;
    }
    ledger := Collect(roster, receipts, families);
    if ledger.Some? {
      GatheredRecords(ledger.value, roster, trials, receipts, families);
    }
  }

  /** The trials by identifier. */
  method Assignments(trials: seq<Trial>) returns (roster: map<string, Trial>)
    requires Distinct(Mapped(IdOf, trials))
    ensures Enrols(roster, trials)
  {
    forall t, u | t in trials && u in trials && t.id == u.id
      ensures t == u
    {
      TrialById(trials, t, u);
    }
    MappedElements(IdOf, trials);
    roster := map t <- trials :: t.id := t;
    forall id
      ensures id in roster.Keys <==> id in Elements(Mapped(IdOf, trials))
    {
      if id in Elements(Mapped(IdOf, trials)) {
        var t :| t in trials && IdOf(t) == id;
        assert t.id in roster;
      }
      if id in roster.Keys {
        var t :| t in trials && t.id == id;
        assert IdOf(t) == id;
      }
    }
  }

  /** Every outcome is that of a receipt which fits its trial. */
  ghost predicate Gathered(
    ledger: Ledger, receipts: seq<Receipt>, roster: map<string, Trial>, families: map<string, string>)
  {
    forall r <- receipts ::
      && r.id in roster && Fits(r, roster[r.id], families)
      && r.id in ledger && ledger[r.id] == Outcome(r.resolved, r.family)
  }

  method Collect(roster: map<string, Trial>, receipts: seq<Receipt>, families: map<string, string>)
    returns (ledger: Option<Ledger>)
    requires Distinct(Mapped(ReceiptId, receipts))
    ensures ledger.Some? <==> forall r <- receipts :: r.id in roster && Fits(r, roster[r.id], families)
    ensures ledger.Some? ==> Gathered(ledger.value, receipts, roster, families)
  {
    var observed: Ledger := map[];
    for i := 0 to |receipts|
      invariant Gathered(observed, receipts[..i], roster, families)
    {
      var r := receipts[i];
      PrefixNext(receipts, i);
      if r.id !in roster || !Fits(r, roster[r.id], families) {
        assert r in receipts;
        return None;
      }
      forall q <- receipts[..i]
        ensures q.id != r.id
      {
        var j :| 0 <= j < i && receipts[..i][j] == q;
        if q.id == r.id {
          ReceiptById(receipts, j, i);
        }
      }
      observed := observed[r.id := Outcome(r.resolved, r.family)];
    }
    assert receipts[..|receipts|] == receipts;
    return Some(observed);
  }
}
