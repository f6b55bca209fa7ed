/**
 * The main loop of synchronized_lights.py: one pass per audio block, either
 * replaying the cached row for that block or computing the decisions afresh
 * and appending them to the cache, which is written out at the end only when
 * no cache was found. Each block is given by the eight light levels that
 * calculate_levels returns for it (Bands.CalculateLevels).
 */
module Playback {
  import opened Wrappers
  import opened Threshold
  import opened SyncCache

  /** The loop's state between blocks: the mode, the cache rows, the current
      row, the lights as last driven, and the controller's channels. */
  datatype PlayerState = PlayerState(
    found: bool,
    cache: seq<seq<string>>,
    row: nat,
    lights: seq<bool>,
    channels: seq<ChannelState>)

  predicate ValidPlayer(p: PlayerState) {
    |p.lights| == Channels && ValidStates(p.channels)
  }

  /** All lights off, fresh controller, row 0, with whatever rows the cache
      read produced and whether it completed. */
  function InitialPlayer(found: bool, loaded: seq<seq<string>>): (p: PlayerState)
    ensures ValidPlayer(p)
  {
    PlayerState(found, loaded, 0, seq(Channels, _ => false), InitialStates())
  }

  datatype BlockResult = BlockResult(ok: bool, state: PlayerState)

  /** One pass of the loop. In replay mode a cached row past the end changes
      nothing but the row number; an unreadable row stops the run (ok false)
      after the lights before the bad field were set. */
  function BlockSpec(p: PlayerState, levels: seq<real>): (r: BlockResult)
    requires ValidPlayer(p) && |levels| == Channels
    ensures ValidPlayer(r.state) && r.state.found == p.found
    ensures p.found ==> r.state.cache == p.cache && r.state.channels == p.channels
  {
    if p.found then
      if p.row < |p.cache| then
        var entry := p.cache[p.row];
        var ok := RowReadable(entry);
        BlockResult(ok, p.(row := if ok then p.row + 1 else p.row, lights := ReplayRow(p.lights, entry)))
      else
        BlockResult(true, p.(row := p.row + 1))
    else
      var b := BlockStep(p.channels, levels);
      BlockResult(true, p.(cache := p.cache + [EncodeRow(b.on)], row := p.row + 1, lights := b.on, channels := b.next))
  }

  /** The lights shown after each completed block, and the final state. */
  datatype RunResult = RunResult(ok: bool, shown: seq<seq<bool>>, state: PlayerState)

  function RunSpec(p: PlayerState, blocks: seq<seq<real>>): (r: RunResult)
    requires ValidPlayer(p) && WellShaped(blocks)
    ensures ValidPlayer(r.state) && r.state.found == p.found
    ensures p.found ==> r.state.cache == p.cache && r.state.channels == p.channels
    ensures |r.shown| <= |blocks| && (r.ok ==> |r.shown| == |blocks|)
    ensures forall k :: 0 <= k < |r.shown| ==> |r.shown[k]| == Channels
    decreases |blocks|
  {
    if blocks == [] then RunResult(true, [], p)
    else
      var prev := RunSpec(p, blocks[..|blocks| - 1]);
      if !prev.ok then prev
      else
        var b := BlockSpec(prev.state, blocks[|blocks| - 1]);
        RunResult(b.ok, if b.ok then prev.shown + [b.state.lights] else prev.shown, b.state)
  }

  /** Once a run has stopped, later blocks change nothing. */
  lemma {:induction false} RunStops(p: PlayerState, blocks: seq<seq<real>>, k: nat)
    requires ValidPlayer(p) && WellShaped(blocks) && k <= |blocks|
    requires !RunSpec(p, blocks[..k]).ok
    ensures RunSpec(p, blocks) == RunSpec(p, blocks[..k])
    decreases |blocks| - k
  {
    if k < |blocks| {
      assert blocks[..|blocks| - 1][..k] == blocks[..k];
      RunStops(p, blocks[..|blocks| - 1], k);
    } else {
      assert blocks[..k] == blocks;
    }
  }

  /** Fresh mode: every block is classified by the threshold controller,
      the lights show exactly those decisions, and the cache grows by one
      encoded row per block, in block order. */
  lemma {:induction false} FreshRecords(p: PlayerState, blocks: seq<seq<real>>)
    requires ValidPlayer(p) && !p.found && WellShaped(blocks)
    ensures var r := RunSpec(p, blocks);
      var t := Run(p.channels, blocks);
      && r.ok
      && r.shown == t.decisions
      && r.state.cache == p.cache + EncodeRows(t.decisions)
      && r.state.channels == t.final
      && r.state.row == p.row + |blocks|
    decreases |blocks|
  {
    if blocks != [] {
      var n := |blocks|;
      var prefix := blocks[..n - 1];
      FreshRecords(p, prefix);
      var t0 := Run(p.channels, prefix);
      var t := Run(p.channels, blocks);
      assert t.decisions == t0.decisions + [BlockStep(t0.final, blocks[n - 1]).on];
      assert EncodeRows(t.decisions) == EncodeRows(t0.decisions) + [EncodeRow(t.decisions[n - 1])];
    }
  }

  /** The lights after replaying the given row of the cache; past its end
      they stay as they were. */
  function ReplayStep(lights: seq<bool>, cache: seq<seq<string>>, row: nat): (r: seq<bool>)
    requires |lights| == Channels
    ensures |r| == Channels
  {
    if row < |cache| then ReplayRow(lights, cache[row]) else lights
  }

  /** The cached row at this index, if there is one, is readable. */
  predicate CachedRowOk(cache: seq<seq<string>>, row: nat) {
    row < |cache| ==> RowReadable(cache[row])
  }

  /** One replayed block: it succeeds exactly when its row (if any) is
      readable, and it shows that row applied to the previous lights. */
  lemma ReplayBlock(p: PlayerState, levels: seq<real>)
    requires ValidPlayer(p) && p.found && |levels| == Channels
    ensures var b := BlockSpec(p, levels);
      && b.ok == CachedRowOk(p.cache, p.row)
      && b.state.lights == ReplayStep(p.lights, p.cache, p.row)
      && (b.ok ==> b.state.row == p.row + 1)
  {
  }

  /** The cache as the replay reads it: each row's decoded leading values. */
  function DecodeCache(cache: seq<seq<string>>): (rows: seq<seq<bool>>)
    ensures |rows| == |cache| && ShortRows(rows)
    ensures forall k :: 0 <= k < |cache| ==> rows[k] == DecodeRow(cache[k])
  {
    seq(|cache|, k requires 0 <= k < |cache| => DecodeRow(cache[k]))
  }

  /** No decoded row has more than one value per channel. */
  predicate ShortRows(rows: seq<seq<bool>>) {
    forall k :: 0 <= k < |rows| ==> |rows[k]| <= Channels
  }

  /** The decoded row at this index, if there is one, has all eight values. */
  predicate RowFull(rows: seq<seq<bool>>, row: nat) {
    row < |rows| ==> |rows[row]| == Channels
  }

  /** The lights after a decoded row; past the last row they stay. */
  function RowStep(lights: seq<bool>, rows: seq<seq<bool>>, row: nat): (r: seq<bool>)
    requires |lights| == Channels && ShortRows(rows)
    ensures |r| == Channels
  {
    if row < |rows| then Overlay(lights, rows[row]) else lights
  }

  /** One block on the decoded cache is one block on the cache itself. */
  lemma DecodedStep(lights: seq<bool>, cache: seq<seq<string>>, row: nat)
    requires |lights| == Channels
    ensures CachedRowOk(cache, row) == RowFull(DecodeCache(cache), row)
    ensures ReplayStep(lights, cache, row) == RowStep(lights, DecodeCache(cache), row)
  {
    if row < |cache| {
      ReplayRowDecoded(lights, cache[row]);
    }
  }

  /** Every decoded row from lo up to, not including, lo + n is full. */
  predicate RowsFull(rows: seq<seq<bool>>, lo: nat, n: nat) {
    forall row :: lo <= row < lo + n ==> RowFull(rows, row)
  }

  lemma RowsFullExtend(rows: seq<seq<bool>>, lo: nat, n: nat)
    ensures RowsFull(rows, lo, n + 1) <==> RowsFull(rows, lo, n) && RowFull(rows, lo + n)
  {
    if RowsFull(rows, lo, n) && RowFull(rows, lo + n) {
      forall row | lo <= row < lo + n + 1
        ensures RowFull(rows, row)
      {
        if row < lo + n {
          assert lo <= row < lo + n;
        }
      }
    }
  }

  /** Replay mode on its own: n blocks replayed over decoded rows from the
      given lights and row, stopping at the first row that is not full. */
  datatype ReplayOut = ReplayOut(ok: bool, shown: seq<seq<bool>>, lights: seq<bool>, row: nat)

  function ReplayRun(lights: seq<bool>, rows: seq<seq<bool>>, row: nat, n: nat): (q: ReplayOut)
    requires |lights| == Channels && ShortRows(rows)
    ensures |q.lights| == Channels
    ensures |q.shown| <= n && (q.ok ==> |q.shown| == n)
    decreases n
  {
    if n == 0 then ReplayOut(true, [], lights, row)
    else
      var prev := ReplayRun(lights, rows, row, n - 1);
      if !prev.ok then prev
      else
        var ok := RowFull(rows, prev.row);
        var x := RowStep(prev.lights, rows, prev.row);
        ReplayOut(ok, if ok then prev.shown + [x] else prev.shown, x, if ok then prev.row + 1 else prev.row)
  }

  /** The main loop in replay mode is ReplayRun on the decoded cache: same
      verdict, same shown rows, same lights and row, and the cache and the
      controller untouched. */
  lemma {:induction false} ReplayAgrees(p: PlayerState, blocks: seq<seq<real>>)
    requires ValidPlayer(p) && p.found && WellShaped(blocks)
    ensures var q := ReplayRun(p.lights, DecodeCache(p.cache), p.row, |blocks|);
      RunSpec(p, blocks) == RunResult(q.ok, q.shown, p.(lights := q.lights, row := q.row))
    decreases |blocks|
  {
    if blocks != [] {
      var n := |blocks|;
      var prefix := blocks[..n - 1];
      ReplayAgrees(p, prefix);
      var prev := RunSpec(p, prefix);
      if prev.ok {
        ReplayBlock(prev.state, blocks[n - 1]);
        DecodedStep(prev.state.lights, p.cache, prev.state.row);
      }
    }
  }

  /** ReplayRun completes exactly when every row it reaches is full, and then
      it has advanced one row per block. */
  lemma {:induction false} ReplayRunCompletes(lights: seq<bool>, rows: seq<seq<bool>>, row: nat, n: nat)
    requires |lights| == Channels && ShortRows(rows)
    ensures ReplayRun(lights, rows, row, n).ok <==> RowsFull(rows, row, n)
    ensures ReplayRun(lights, rows, row, n).ok ==> ReplayRun(lights, rows, row, n).row == row + n
    decreases n
  {
    if n == 0 {
      assert RowsFull(rows, row, 0);
    } else {
      ReplayRunCompletes(lights, rows, row, n - 1);
      RowsFullExtend(rows, row, n - 1);
    }
  }

  /** What n replayed blocks show when they start at the given row with the
      given lights: block k shows the decoded row at row + k applied to what
      block k - 1 showed (the starting lights for block 0). */
  function ReplaySeq(lights: seq<bool>, rows: seq<seq<bool>>, row: nat, n: nat): (s: seq<seq<bool>>)
    requires |lights| == Channels && ShortRows(rows)
    ensures |s| == n && forall k :: 0 <= k < n ==> |s[k]| == Channels
  {
    if n == 0 then []
    else
      var prev := ReplaySeq(lights, rows, row, n - 1);
      prev + [RowStep(if n == 1 then lights else prev[n - 2], rows, row + (n - 1))]
  }

  /** After a run that completed, ReplayRun's lights are the last row it
      showed (the starting lights when it showed none). */
  lemma {:induction false} ReplayRunLights(lights: seq<bool>, rows: seq<seq<bool>>, row: nat, n: nat)
    requires |lights| == Channels && ShortRows(rows)
    ensures var q := ReplayRun(lights, rows, row, n);
      q.ok ==> q.lights == if n == 0 then lights else q.shown[n - 1]
  {
  }

  /** ReplayRun shows a prefix of ReplaySeq. */
  lemma {:induction false} ReplayRunShows(lights: seq<bool>, rows: seq<seq<bool>>, row: nat, n: nat)
    requires |lights| == Channels && ShortRows(rows)
    ensures var q := ReplayRun(lights, rows, row, n);
      q.shown == ReplaySeq(lights, rows, row, |q.shown|)
    decreases n
  {
    if n > 0 {
      ReplayRunShows(lights, rows, row, n - 1);
      ReplayRunCompletes(lights, rows, row, n - 1);
      ReplayRunLights(lights, rows, row, n - 1);
      var prev := ReplayRun(lights, rows, row, n - 1);
      if prev.ok && RowFull(rows, prev.row) {
        ReplaySeqStep(lights, rows, row, n, prev.shown, prev.lights);
      }
    }
  }

  /** One more replayed block extends ReplaySeq by the next row laid over the
      last lights shown. */
  lemma ReplaySeqStep(lights: seq<bool>, rows: seq<seq<bool>>, row: nat, n: nat, shown: seq<seq<bool>>, last: seq<bool>)
    requires |lights| == Channels && ShortRows(rows) && n > 0 && |last| == Channels
    requires shown == ReplaySeq(lights, rows, row, n - 1)
    requires last == if n == 1 then lights else shown[n - 2]
    ensures shown + [RowStep(last, rows, row + (n - 1))] == ReplaySeq(lights, rows, row, n)
  {
  }

  /** Replay mode: the run completes exactly when every cached row it reaches
      decodes to all eight values (is readable), and then it has advanced one
      row per block. */
  lemma ReplayCompletes(p: PlayerState, blocks: seq<seq<real>>)
    requires ValidPlayer(p) && p.found && WellShaped(blocks)
    ensures RunSpec(p, blocks).ok <==> RowsFull(DecodeCache(p.cache), p.row, |blocks|)
    ensures RunSpec(p, blocks).ok ==> RunSpec(p, blocks).state.row == p.row + |blocks|
  {
    ReplayAgrees(p, blocks);
    ReplayRunCompletes(p.lights, DecodeCache(p.cache), p.row, |blocks|);
  }

  /** Replay mode: the blocks show exactly the cached rows applied one after
      the other to the starting lights; once the rows run out the lights
      freeze. */
  lemma ReplayShows(p: PlayerState, blocks: seq<seq<real>>)
    requires ValidPlayer(p) && p.found && WellShaped(blocks)
    ensures var r := RunSpec(p, blocks);
      && r.shown == ReplaySeq(p.lights, DecodeCache(p.cache), p.row, |r.shown|)
      && (r.ok && |blocks| > 0 ==> r.state.lights == r.shown[|blocks| - 1])
  {
    ReplayAgrees(p, blocks);
    ReplayRunShows(p.lights, DecodeCache(p.cache), p.row, |blocks|);
    ReplayRunLights(p.lights, DecodeCache(p.cache), p.row, |blocks|);
  }

  /** Round trip: a fresh run from an empty cache records rows that, when
      replayed over the same blocks, show the very same light sequence. */
  lemma RecordReplayRoundTrip(blocks: seq<seq<real>>)
    requires WellShaped(blocks)
    ensures var recorded := RunSpec(InitialPlayer(false, []), blocks);
      var replay := RunSpec(InitialPlayer(true, recorded.state.cache), blocks);
      && recorded.ok && replay.ok
      && |recorded.state.cache| == |blocks|
      && replay.shown == recorded.shown
  {
    RecordAfterLoaded([], blocks);
  }

  /** A fresh run that starts after rows left by a failed cache read writes
      its rows after them, so its own decisions are replayed only from row
      |loaded| on; a replay from row 0 shows the loaded rows first. */
  lemma RecordAfterLoaded(loaded: seq<seq<string>>, blocks: seq<seq<real>>)
    requires WellShaped(blocks)
    ensures var recorded := RunSpec(InitialPlayer(false, loaded), blocks);
      var replay := RunSpec(InitialPlayer(true, recorded.state.cache).(row := |loaded|), blocks);
      && recorded.ok && replay.ok
      && |recorded.state.cache| == |loaded| + |blocks|
      && recorded.state.cache[..|loaded|] == loaded
      && replay.shown == recorded.shown
  {
    var recorded := RunSpec(InitialPlayer(false, loaded), blocks);
    FreshRecords(InitialPlayer(false, loaded), blocks);
    var d := recorded.shown;
    assert recorded.state.cache == loaded + EncodeRows(d);
    assert recorded.state.cache[..|loaded|] == loaded;
    ReplayEncodedRun(InitialPlayer(true, recorded.state.cache).(row := |loaded|), loaded, d, blocks);
    assert d[..|blocks|] == d;
  }

  /** The recorded rows decode to the recorded decisions, after whatever the
      rows before them decode to. */
  lemma DecodeCacheEncoded(pre: seq<seq<string>>, d: seq<seq<bool>>)
    requires forall k :: 0 <= k < |d| ==> |d[k]| == Channels
    ensures DecodeCache(pre + EncodeRows(d)) == DecodeCache(pre) + d
  {
    var cache := pre + EncodeRows(d);
    var rows, want := DecodeCache(cache), DecodeCache(pre) + d;
    assert |rows| == |want|;
    forall k | 0 <= k < |rows|
      ensures rows[k] == want[k]
    {
      if k < |pre| {
        assert cache[k] == pre[k];
      } else {
        var i := k - |pre|;
        assert cache[k] == EncodeRows(d)[i] == EncodeRow(d[i]);
        DecodeEncoded(d[i]);
        assert want[k] == d[i];
      }
    }
  }

  /** Full decoded rows placed after any others replay to themselves from
      where they start, whatever the lights were. */
  lemma {:induction false} ReplaySeqFull(lights: seq<bool>, a: seq<seq<bool>>, d: seq<seq<bool>>, n: nat)
    requires |lights| == Channels && ShortRows(a) && n <= |d|
    requires forall k :: 0 <= k < |d| ==> |d[k]| == Channels
    ensures ShortRows(a + d)
    ensures ReplaySeq(lights, a + d, |a|, n) == d[..n]
    ensures RowsFull(a + d, |a|, n)
    decreases n
  {
    var rows := a + d;
    assert forall k :: 0 <= k < |d| ==> rows[|a| + k] == d[k];
    if n > 0 {
      ReplaySeqFull(lights, a, d, n - 1);
      RowsFullExtend(rows, |a|, n - 1);
      var prev := ReplaySeq(lights, rows, |a|, n - 1);
      var before := if n == 1 then lights else prev[n - 2];
      var x := d[n - 1];
      assert rows[|a| + n - 1] == x;
      assert before[|x|..] == [];
      assert RowStep(before, rows, |a| + (n - 1)) == x;
      assert d[..n] == d[..n - 1] + [x];
    }
  }

  /** Replaying recorded rows from the row where they start completes and
      shows the recorded decisions. */
  lemma ReplayEncodedRun(p: PlayerState, pre: seq<seq<string>>, d: seq<seq<bool>>, blocks: seq<seq<real>>)
    requires ValidPlayer(p) && p.found && WellShaped(blocks)
    requires p.cache == pre + EncodeRows(d) && p.row == |pre| && |blocks| <= |d|
    requires forall k :: 0 <= k < |d| ==> |d[k]| == Channels
    ensures var r := RunSpec(p, blocks);
      r.ok && r.shown == d[..|blocks|] && r.state.row == |pre| + |blocks|
  {
    DecodeCacheEncoded(pre, d);
    ReplaySeqFull(p.lights, DecodeCache(pre), d, |blocks|);
    ReplayCompletes(p, blocks);
    ReplayShows(p, blocks);
  }

  datatype CacheWrite = CacheWrite(filename: string, rows: seq<seq<string>>)

  /** The script's state for one playback: the controller, the eight lights,
      the cache rows and the current row. */
  class Player {
    const controller: ThresholdController
    const lights: array<bool>
    const cacheFound: bool
    var cache: seq<seq<string>>
    var row: nat

    ghost predicate Valid()
      reads this, controller, controller.limit, controller.offct, lights
    {
      controller.Valid() && lights.Length == Channels
    }

    function State(): (p: PlayerState)
      reads this, controller, controller.limit, controller.offct, lights
      requires controller.limit.Length == controller.offct.Length
    {
      PlayerState(cacheFound, cache, row, lights[..], controller.States())
    }

    constructor (found: bool, loaded: seq<seq<string>>)
      ensures Valid() && fresh(lights) && fresh(controller.limit) && fresh(controller.offct)
      ensures State() == InitialPlayer(found, loaded)
    {
      controller := new ThresholdController();
      lights := new bool[Channels](_ => false);
      cacheFound := found;
      cache := loaded;
      row := 0;
    }

    /** The body of the main loop for one block. */
    method ProcessBlock(levels: seq<real>) returns (ok: bool)
      requires Valid() && |levels| == Channels
      modifies this, lights, controller.limit, controller.offct
      ensures Valid()
      ensures var r := BlockSpec(old(State()), levels); ok == r.ok && State() == r.state
    {
      if cacheFound {
        if row < |cache| {
          ok := ReplayInto(cache[row]);
          if ok {
            row := row + 1;
          }
        } else {
          ok := true;
          row := row + 1;
        }
      } else {
        var on := controller.Step(levels);
        forall i | 0 <= i < Channels {
          lights[i] := on[i];
        }
        assert lights[..] == on;
        cache := cache + [EncodeRow(on)];
        row := row + 1;
        ok := true;
      }
    }

    /** Drives the lights from one cached row: int() of each of the first
        eight fields, stopping (ok false) where int() or the indexing raises. */
    method ReplayInto(entry: seq<string>) returns (ok: bool)
      requires lights.Length == Channels
      modifies lights
      ensures ok == RowReadable(entry)
      ensures lights[..] == ReplayRow(old(lights[..]), entry)
    {
      var i := 0;
      ok := true;
      while i < Channels && ok
        invariant 0 <= i <= Channels
        invariant !ok ==> i < Channels && !FieldReadable(entry, i)
        invariant forall j :: 0 <= j < i ==> FieldReadable(entry, j) && lights[j] == FieldValue(entry, j)
        invariant forall j :: i <= j < Channels ==> lights[j] == old(lights[j])
        decreases Channels - i, ok
      {
        if FieldReadable(entry, i) {
          lights[i] := FieldValue(entry, i);
          i := i + 1;
        } else {
          ok := false;
        }
      }
      FirstBadIs(entry, 0, i);
      forall j | 0 <= j < Channels
        ensures lights[j] == ReplayRow(old(lights[..]), entry)[j]
      {
      }
    }

    /** The main loop over all blocks; stops at the first unreadable row. */
    method Run(blocks: seq<seq<real>>) returns (ok: bool, shown: seq<seq<bool>>)
      requires Valid() && WellShaped(blocks)
      modifies this, lights, controller.limit, controller.offct
      ensures Valid()
      ensures var r := RunSpec(old(State()), blocks); ok == r.ok && shown == r.shown && State() == r.state
    {
      ok, shown := true, [];
      var k := 0;
      while k < |blocks| && ok
        invariant 0 <= k <= |blocks| && Valid()
        invariant RunSpec(old(State()), blocks[..k]) == RunResult(ok, shown, State())
      {
        assert blocks[..k + 1][..k] == blocks[..k];
        ok := ProcessBlock(blocks[k]);
        if ok {
          shown := shown + [lights[..]];
        }
        k := k + 1;
      }
      if ok {
        assert blocks[..k] == blocks;
      } else {
        RunStops(old(State()), blocks, k);
      }
    }
  }

  /** One playback of the file at path (already absolute): the lights shown
      per block and, only when no cache was found, the cache to write beside
      the file. In fresh mode the shown lights are the controller's decisions
      on the blocks and the written rows are their encoding, after whatever
      rows the failed cache read left behind. */
  method Play(path: string, blocks: seq<seq<real>>, loaded: seq<seq<string>>, found: bool)
    returns (ok: bool, shown: seq<seq<bool>>, written: Option<CacheWrite>)
    requires WellShaped(blocks)
    ensures found ==> written == None
    ensures found ==> var r := RunSpec(InitialPlayer(true, loaded), blocks); ok == r.ok && shown == r.shown
    ensures !found ==> ok && shown == Threshold.Run(InitialStates(), blocks).decisions
    ensures !found ==> written == Some(CacheWrite(CacheFilename(path), loaded + EncodeRows(shown)))
  {
    var player := new Player(found, loaded);
    ok, shown := player.Run(blocks);
    if !found {
      FreshRecords(InitialPlayer(false, loaded), blocks);
      written := Some(CacheWrite(CacheFilename(path), player.cache));
    } else {
      written := None;
    }
  }
}
