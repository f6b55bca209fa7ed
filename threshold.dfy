/**
 * The adaptive per-channel threshold of synchronized_lights.py: eight
 * channels, each with a `limit` and an `offct` (off-run counter), updated in
 * place once per audio block.
 */
module Threshold {

  /** Number of light channels. */
  const Channels: nat := 8
  /** Every limit starts here. */
  const InitialLimit: real := 5.0
  /** A limit below RaiseRatio * level is multiplied by RaiseFactor. */
  const RaiseRatio: real := 0.6
  const RaiseFactor: real := 1.2
  /** An off-run longer than MaxOffRun blocks decays the limit by DecayFactor. */
  const MaxOffRun: int := 10
  const DecayFactor: real := 0.8

  datatype ChannelState = ChannelState(limit: real, offct: int)

  /** The decision for one channel and the state it leaves behind. */
  datatype ChannelOut = ChannelOut(on: bool, next: ChannelState)

  /** What holds of every channel between blocks. */
  predicate ValidChannel(s: ChannelState) {
    s.limit > 0.0 && 0 <= s.offct <= MaxOffRun
  }

  predicate ValidStates(states: seq<ChannelState>) {
    |states| == Channels && forall i :: 0 <= i < |states| ==> ValidChannel(states[i])
  }

  /** The limit after the optional upward recalibration. */
  function Raised(limit: real, level: real): real {
    if limit < level * RaiseRatio then limit * RaiseFactor else limit
  }

  /** One channel for one block: raise, compare strictly, count the off-run. */
  function ChannelStep(s: ChannelState, level: real): (r: ChannelOut)
    ensures ValidChannel(s) ==> ValidChannel(r.next)
  {
    var limit := Raised(s.limit, level);
    if level > limit then ChannelOut(true, ChannelState(limit, 0))
    else if s.offct + 1 > MaxOffRun then ChannelOut(false, ChannelState(limit * DecayFactor, 0))
    else ChannelOut(false, ChannelState(limit, s.offct + 1))
  }

  /** With a positive limit the raise never changes the verdict: the channel
      is on exactly when the level is strictly above the limit it had before
      the block, so a level equal to the limit is off. */
  lemma DecisionIsStrict(s: ChannelState, level: real)
    requires s.limit > 0.0
    ensures ChannelStep(s, level).on <==> level > s.limit
  {
    if s.limit < level * RaiseRatio {
      assert level > 0.0;
      assert s.limit * RaiseFactor < level;
    }
  }

  /** The limit moves by at most one factor per block: ×1.2 exactly when it
      is below 0.6 × level (and the channel is then on), ×0.8 exactly on an off
      block that finds the counter at MaxOffRun, and otherwise not at all. */
  lemma LimitUpdate(s: ChannelState, level: real)
    requires ValidChannel(s)
    ensures var r := ChannelStep(s, level);
      && (s.limit < level * RaiseRatio ==> r.on && r.next.limit == s.limit * RaiseFactor)
      && (!r.on && s.offct == MaxOffRun ==> r.next.limit == s.limit * DecayFactor)
      && (s.limit >= level * RaiseRatio && (r.on || s.offct < MaxOffRun) ==> r.next.limit == s.limit)
  {
    DecisionIsStrict(s, level);
  }

  /** The counter: zero after an on block, one more after an off block,
      wrapping to zero on the eleventh. */
  lemma CounterUpdate(s: ChannelState, level: real)
    requires ValidChannel(s)
    ensures var r := ChannelStep(s, level);
      r.next.offct == if r.on then 0 else (s.offct + 1) % (MaxOffRun + 1)
  {
  }

  /** The decision and new state of all channels for one block. */
  datatype BlockOut = BlockOut(on: seq<bool>, next: seq<ChannelState>)

  function BlockStep(states: seq<ChannelState>, levels: seq<real>): (r: BlockOut)
    requires |states| == Channels && |levels| == Channels
    ensures |r.on| == Channels && |r.next| == Channels
    ensures ValidStates(states) ==> ValidStates(r.next)
  {
    BlockOut(seq(Channels, i requires 0 <= i < Channels => ChannelStep(states[i], levels[i]).on),
             seq(Channels, i requires 0 <= i < Channels => ChannelStep(states[i], levels[i]).next))
  }

  predicate WellShaped(blocks: seq<seq<real>>) {
    forall k :: 0 <= k < |blocks| ==> |blocks[k]| == Channels
  }

  /** The decisions for a whole block sequence, in block order, and the final
      state. Defined from the last block so that a loop can append. */
  datatype RunOut = RunOut(decisions: seq<seq<bool>>, final: seq<ChannelState>)

  function Run(states: seq<ChannelState>, blocks: seq<seq<real>>): (r: RunOut)
    requires |states| == Channels && WellShaped(blocks)
    ensures |r.decisions| == |blocks| && |r.final| == Channels
    ensures forall k :: 0 <= k < |blocks| ==> |r.decisions[k]| == Channels
    decreases |blocks|
  {
    if blocks == [] then RunOut([], states)
    else
      var p := Run(states, blocks[..|blocks| - 1]);
      var b := BlockStep(p.final, blocks[|blocks| - 1]);
      RunOut(p.decisions + [b.on], b.next)
  }

  function InitialStates(): (s: seq<ChannelState>)
    ensures ValidStates(s)
  {
    seq(Channels, _ => ChannelState(InitialLimit, 0))
  }

  /** The invariant survives any finite block sequence: every limit stays
      positive and every counter stays in 0..10. */
  lemma {:induction false} RunKeepsValid(states: seq<ChannelState>, blocks: seq<seq<real>>)
    requires ValidStates(states) && WellShaped(blocks)
    ensures ValidStates(Run(states, blocks).final)
    decreases |blocks|
  {
    if blocks != [] {
      RunKeepsValid(states, blocks[..|blocks| - 1]);
    }
  }

  /** limit × 0.8^m */
  function Decayed(limit: real, m: nat): real {
    if m == 0 then limit else Decayed(limit, m - 1) * DecayFactor
  }

  lemma {:induction false} DecayedPositive(limit: real, m: nat)
    requires limit > 0.0
    ensures Decayed(limit, m) > 0.0
  {
    if m > 0 {
      DecayedPositive(limit, m - 1);
    }
  }

  /** A run of n off blocks on channel i, entered with counter c, leaves the
      counter at (c + n) mod 11 and decays the limit once per eleventh
      consecutive off block: the decay fires on exactly the 11th. */
  lemma {:induction false} OffRunDecays(states: seq<ChannelState>, blocks: seq<seq<real>>, i: nat)
    requires ValidStates(states) && WellShaped(blocks) && i < Channels
    requires forall k :: 0 <= k < |blocks| ==> !Run(states, blocks).decisions[k][i]
    ensures var n := states[i].offct + |blocks|;
      Run(states, blocks).final[i] == ChannelState(Decayed(states[i].limit, n / 11), n % 11)
    decreases |blocks|
  {
    RunKeepsValid(states, blocks);
    if blocks != [] {
      var prefix := blocks[..|blocks| - 1];
      var p := Run(states, prefix);
      RunKeepsValid(states, prefix);
      var b := BlockStep(p.final, blocks[|blocks| - 1]);
      assert Run(states, blocks).decisions == p.decisions + [b.on];
      assert !Run(states, blocks).decisions[|blocks| - 1][i];
      forall k | 0 <= k < |prefix|
        ensures !p.decisions[k][i]
      {
        assert p.decisions[k] == Run(states, blocks).decisions[k];
      }
      OffRunDecays(states, prefix, i);
      var level := blocks[|blocks| - 1][i];
      var s := p.final[i];
      var m := states[i].offct + |prefix|;
      assert s == ChannelState(Decayed(states[i].limit, m / 11), m % 11);
      assert !b.on[i];
      DecisionIsStrict(s, level);
      assert Raised(s.limit, level) == s.limit;
      if m % 11 == 10 {
        assert (m + 1) % 11 == 0 && (m + 1) / 11 == m / 11 + 1;
      } else {
        assert (m + 1) % 11 == m % 11 + 1 && (m + 1) / 11 == m / 11;
      }
    }
  }

  /** Eleven consecutive off blocks from a fresh counter: the limit is
      unchanged for ten of them and decays once, by ×0.8, on the eleventh, and
      the counter is back at zero. */
  lemma ElevenOffBlocks(states: seq<ChannelState>, blocks: seq<seq<real>>, i: nat)
    requires ValidStates(states) && WellShaped(blocks) && i < Channels
    requires states[i].offct == 0 && |blocks| == 11
    requires forall k :: 0 <= k < |blocks| ==> !Run(states, blocks).decisions[k][i]
    ensures Run(states, blocks).final[i] == ChannelState(states[i].limit * DecayFactor, 0)
    ensures Run(states, blocks[..10]).final[i] == ChannelState(states[i].limit, 10)
  {
    OffRunDecays(states, blocks, i);
    var prefix := blocks[..10];
    assert blocks[..|blocks| - 1] == prefix;
    forall k | 0 <= k < |prefix|
      ensures !Run(states, prefix).decisions[k][i]
    {
      assert Run(states, prefix).decisions[k] == Run(states, blocks).decisions[k];
    }
    OffRunDecays(states, prefix, i);
  }

  /** Silence (every level zero) keeps every channel off. */
  lemma {:induction false} SilenceKeepsOff(states: seq<ChannelState>, blocks: seq<seq<real>>)
    requires ValidStates(states) && WellShaped(blocks)
    requires forall k, j :: 0 <= k < |blocks| && 0 <= j < |blocks[k]| ==> blocks[k][j] == 0.0
    ensures forall k, i :: 0 <= k < |blocks| && 0 <= i < Channels ==> !Run(states, blocks).decisions[k][i]
    decreases |blocks|
  {
    if blocks != [] {
      var prefix := blocks[..|blocks| - 1];
      SilenceKeepsOff(states, prefix);
      RunKeepsValid(states, prefix);
      var p := Run(states, prefix);
      var last := blocks[|blocks| - 1];
      var b := BlockStep(p.final, last);
      assert Run(states, blocks).decisions == p.decisions + [b.on];
      forall i | 0 <= i < Channels
        ensures !b.on[i]
      {
        DecisionIsStrict(p.final[i], last[i]);
      }
    }
  }

  /** Under silence every limit decays geometrically, once per 11 blocks,
      and never reaches zero. */
  lemma SilenceDecays(states: seq<ChannelState>, blocks: seq<seq<real>>, i: nat)
    requires ValidStates(states) && WellShaped(blocks) && i < Channels
    requires forall k, j :: 0 <= k < |blocks| && 0 <= j < |blocks[k]| ==> blocks[k][j] == 0.0
    ensures var n := states[i].offct + |blocks|;
      && Run(states, blocks).final[i].limit == Decayed(states[i].limit, n / 11)
      && Run(states, blocks).final[i].limit > 0.0
  {
    SilenceKeepsOff(states, blocks);
    OffRunDecays(states, blocks, i);
    DecayedPositive(states[i].limit, (states[i].offct + |blocks|) / 11);
  }

  /** Pairs the two arrays of the controller into channel states. */
  function Zip(limits: seq<real>, counts: seq<int>): (s: seq<ChannelState>)
    requires |limits| == |counts|
    ensures |s| == |limits|
    ensures forall i :: 0 <= i < |s| ==> s[i] == ChannelState(limits[i], counts[i])
  {
    seq(|limits|, i requires 0 <= i < |limits| => ChannelState(limits[i], counts[i]))
  }

  /** The module-level `limit` and `offct` lists, owned by one run. */
  class ThresholdController {
    const limit: array<real>
    const offct: array<int>

    ghost predicate Valid()
      reads this, limit, offct
    {
      limit.Length == Channels && offct.Length == Channels && ValidStates(States())
    }

    function States(): (s: seq<ChannelState>)
      reads this, limit, offct
      requires limit.Length == offct.Length
      ensures |s| == limit.Length
    {
      Zip(limit[..], offct[..])
    }

    constructor ()
      ensures Valid() && fresh(limit) && fresh(offct)
      ensures States() == InitialStates()
    {
      limit := new real[Channels](_ => InitialLimit);
      offct := new int[Channels](_ => 0);
    }

    /** One block: the per-channel loop updates limit[i] and offct[i] only
        and returns the eight on/off decisions. */
    method Step(levels: seq<real>) returns (on: seq<bool>)
      requires Valid() && |levels| == Channels
      modifies limit, offct
      ensures Valid()
      ensures var b := BlockStep(old(States()), levels);
        on == b.on && States() == b.next
    {
      on := [];
      var i := 0;
      while i < Channels
        invariant 0 <= i <= Channels && |on| == i
        invariant forall j :: 0 <= j < i ==>
          ChannelOut(on[j], ChannelState(limit[j], offct[j]))
            == ChannelStep(ChannelState(old(limit[j]), old(offct[j])), levels[j])
        invariant forall j :: i <= j < Channels ==> limit[j] == old(limit[j]) && offct[j] == old(offct[j])
      {
        if limit[i] < levels[i] * RaiseRatio {
          limit[i] := limit[i] * RaiseFactor;
        }
        if levels[i] > limit[i] {
          offct[i] := 0;
          on := on + [true];
        } else {
          offct[i] := offct[i] + 1;
          if offct[i] > MaxOffRun {
            offct[i] := 0;
            limit[i] := limit[i] * DecayFactor;
          }
          on := on + [false];
        }
        i := i + 1;
      }
      ghost var b := BlockStep(old(States()), levels);
      assert on == b.on;
      assert States() == b.next;
    }
  }
}
