/** The live update applied to the creator panel on every refresh: earnings
    get Gaussian relative noise, followers an integer step, and the
    engagement rate a small step followed by a clamp to [0, 20]. */
module Live {
  import opened Creators
  import opened Draws

  /** The draws of one record's update: the `normalvariate(0, 0.1)`
      variation, the `randint(-50, 100)` follower step and the unit draw
      behind `uniform(-0.5, 0.5)`. */
  datatype JitterDraw = JitterDraw(variation: real, followerDelta: int, engagementUnit: real)

  predicate ValidJitter(d: JitterDraw) {
    -50 <= d.followerDelta <= 100 && IsUnit(d.engagementUnit)
  }

  const EngagementMax: real := 20.0

  /** `b` is `a` with, at most, new earnings, followers and engagement. */
  predicate SameIdentity(a: Creator, b: Creator) {
    a.(monthlyEarnings := b.monthlyEarnings, followers := b.followers, engagementRate := b.engagementRate) == b
  }

  /** The update of one record. */
  function JitterCreator(c: Creator, d: JitterDraw): (r: Creator)
    requires ValidJitter(d)
    ensures SameIdentity(c, r)
    ensures -50 <= r.followers - c.followers <= 100
    ensures 0.0 <= r.engagementRate <= EngagementMax
  {
    var engagement := c.engagementRate + Uniform(-0.5, 0.5, d.engagementUnit);
    c.(
      monthlyEarnings := c.monthlyEarnings * (1.0 + d.variation),
      followers := c.followers + d.followerDelta,
      engagementRate := Clamp(0.0, EngagementMax, engagement)
    )
  }

  /** An engagement rate already inside [0, 20] moves by at most 0.5, and
      one outside is pulled inside. Earnings scale by `1 + variation` and
      followers move by exactly the drawn step, with no clamp. */
  lemma JitterSteps(c: Creator, d: JitterDraw)
    requires ValidJitter(d)
    ensures 0.0 <= c.engagementRate <= EngagementMax ==>
      Dist(JitterCreator(c, d).engagementRate, c.engagementRate) <= 0.5
    ensures JitterCreator(c, d).followers == c.followers + d.followerDelta
    ensures c.monthlyEarnings != 0.0 ==>
      JitterCreator(c, d).monthlyEarnings / c.monthlyEarnings == 1.0 + d.variation
  {
    var step := Uniform(-0.5, 0.5, d.engagementUnit);
    if 0.0 <= c.engagementRate <= EngagementMax {
      ClampIsNearest(0.0, EngagementMax, c.engagementRate + step, c.engagementRate);
    }
    if c.monthlyEarnings != 0.0 {
      var scale := 1.0 + d.variation;
      RatioBack(c.monthlyEarnings, scale);
      var scaled := JitterCreator(c, d).monthlyEarnings;
      assert scaled == c.monthlyEarnings * scale;
      assert scaled / c.monthlyEarnings == (c.monthlyEarnings * scale) / c.monthlyEarnings == scale;
    }
  }

  /** `update_live_data`: every record of the panel updated with its own draws. */
  function UpdateLiveData(panel: seq<Creator>, draws: seq<JitterDraw>): (updated: seq<Creator>)
    requires |draws| == |panel|
    requires forall i :: 0 <= i < |draws| ==> ValidJitter(draws[i])
    ensures |updated| == |panel|
    ensures forall i :: 0 <= i < |panel| ==> SameIdentity(panel[i], updated[i])
    ensures forall i :: 0 <= i < |panel| ==> 0.0 <= updated[i].engagementRate <= EngagementMax
    ensures forall i :: 0 <= i < |panel| ==> updated[i].followers == panel[i].followers + draws[i].followerDelta
  {
    seq(|panel|, i requires 0 <= i < |panel| => JitterCreator(panel[i], draws[i]))
  }

  /** Draws for a sequence of refreshes of a panel of `size` records. */
  predicate ValidRounds(rounds: seq<seq<JitterDraw>>, size: int) {
    forall k :: 0 <= k < |rounds| ==>
      |rounds[k]| == size && forall i :: 0 <= i < size ==> ValidJitter(rounds[k][i])
  }

  /** The panel after one refresh per element of `rounds`. */
  function Refresh(panel: seq<Creator>, rounds: seq<seq<JitterDraw>>): (after: seq<Creator>)
    requires ValidRounds(rounds, |panel|)
    ensures |after| == |panel|
    decreases |rounds|
  {
    if |rounds| == 0 then panel else Refresh(UpdateLiveData(panel, rounds[0]), rounds[1..])
  }

  /** Every round has a draw for record `i`. */
  predicate Covers(rounds: seq<seq<JitterDraw>>, i: int) {
    0 <= i && forall k :: 0 <= k < |rounds| ==> i < |rounds[k]|
  }

  /** Sum of the follower steps record `i` receives over `rounds`. */
  function FollowerSteps(rounds: seq<seq<JitterDraw>>, i: int): int
    requires Covers(rounds, i)
    decreases |rounds|
  {
    if |rounds| == 0 then 0
    else
      assert forall k :: 0 <= k < |rounds| - 1 ==> rounds[1..][k] == rounds[k + 1];
      rounds[0][i].followerDelta + FollowerSteps(rounds[1..], i)
  }

  /** Any number of refreshes keeps the panel's size and every field other
      than earnings, followers and engagement; each record's followers move
      by the sum of its steps; and after at least one refresh, or from a
      panel already within [0, 20], every engagement rate lies in [0, 20]. */
  lemma {:induction false} RefreshInvariants(panel: seq<Creator>, rounds: seq<seq<JitterDraw>>)
    requires ValidRounds(rounds, |panel|)
    ensures |Refresh(panel, rounds)| == |panel|
    ensures forall i :: 0 <= i < |panel| ==> SameIdentity(panel[i], Refresh(panel, rounds)[i])
    ensures forall i :: 0 <= i < |panel| ==>
      Refresh(panel, rounds)[i].followers == panel[i].followers + FollowerSteps(rounds, i)
    ensures (0 < |rounds| || forall i :: 0 <= i < |panel| ==> 0.0 <= panel[i].engagementRate <= EngagementMax) ==>
      forall i :: 0 <= i < |panel| ==> 0.0 <= Refresh(panel, rounds)[i].engagementRate <= EngagementMax
    decreases |rounds|
  {
    if |rounds| > 0 {
      var next := UpdateLiveData(panel, rounds[0]);
      RefreshInvariants(next, rounds[1..]);
    }
  }

  /** Each refresh moves followers by -50 to +100, so after `k` refreshes
      the total step lies in [-50·k, 100·k]. */
  lemma {:induction false} FollowerStepsBounds(rounds: seq<seq<JitterDraw>>, size: int, i: int)
    requires ValidRounds(rounds, size)
    requires 0 <= i < size
    ensures -50 * |rounds| <= FollowerSteps(rounds, i) <= 100 * |rounds|
    decreases |rounds|
  {
    if |rounds| > 0 {
      FollowerStepsBounds(rounds[1..], size, i);
    }
  }

  /** Repeating the same step `k` times moves followers by `k` steps. */
  lemma {:induction false} ConstantSteps(rounds: seq<seq<JitterDraw>>, i: int, step: int)
    requires Covers(rounds, i)
    requires forall k :: 0 <= k < |rounds| ==> rounds[k][i].followerDelta == step
    ensures FollowerSteps(rounds, i) == step * |rounds|
    decreases |rounds|
  {
    if |rounds| > 0 {
      ConstantSteps(rounds[1..], i, step);
    }
  }

  /** Followers are not clamped: a record starting at the smallest initial
      count, 1000, that draws the lowest step, -50, on 21 refreshes in a
      row ends with -50 followers. */
  lemma FollowersCanGoNegative(c: Creator)
    requires c.followers == 1000
    ensures var rounds := seq(21, _ => [JitterDraw(0.0, -50, 0.0)]);
      Refresh([c], rounds)[0].followers == -50
  {
    var rounds := seq(21, _ => [JitterDraw(0.0, -50, 0.0)]);
    RefreshInvariants([c], rounds);
    ConstantSteps(rounds, 0, -50);
  }
}
