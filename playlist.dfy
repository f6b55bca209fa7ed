/**
 * The --playlist option: a tab-separated file of songs, one row per song
 * (name, file, optional comma-separated votes, optional marker). The rows
 * are parsed, the song with the most votes is chosen, and the file is
 * rewritten with that song marked as playing. Rows are given already split
 * into fields; reading, locking and writing the file are not modelled.
 */
module Playlist {
  import opened Wrappers

  /** The marker appended to a song that is being played. */
  const PlayingMark: string := "playing!"

  // ---------------------------------------------------------------- split/join

  /** str.split(','): the pieces between commas, always at least one. */
  function Split(s: string): (parts: seq<string>)
    ensures |parts| >= 1
    ensures forall k :: 0 <= k < |parts| ==> ',' !in parts[k]
  {
    if s == [] then [[]]
    else
      var tail := Split(s[1..]);
      if s[0] == ',' then [[]] + tail
      else [[s[0]] + tail[0]] + tail[1..]
  }

  /** ','.join(parts) for a non-empty list. */
  function Join(parts: seq<string>): (s: string)
    requires |parts| >= 1
    ensures |parts[0]| <= |s| && s[..|parts[0]|] == parts[0]
  {
    if |parts| == 1 then parts[0] else parts[0] + "," + Join(parts[1..])
  }

  predicate NoCommas(parts: seq<string>) {
    forall k :: 0 <= k < |parts| ==> ',' !in parts[k]
  }

  /** Joining comma-free pieces puts exactly one comma between each two. */
  lemma {:induction false} JoinCommas(parts: seq<string>)
    requires |parts| >= 1 && NoCommas(parts)
    ensures multiset(Join(parts))[','] == |parts| - 1
    decreases |parts|
  {
    if |parts| > 1 {
      JoinCommas(parts[1..]);
      assert multiset(parts[0])[','] == 0;
      assert multiset(parts[0] + "," + Join(parts[1..])) == multiset(parts[0]) + multiset{','} + multiset(Join(parts[1..]));
    } else {
      assert multiset(parts[0])[','] == 0;
    }
  }

  /** Splitting a comma-free prefix glued to the front of a string glues it
      to the first piece. */
  lemma {:induction false} SplitPrefix(a: string, b: string)
    requires ',' !in a
    ensures Split(a + b) == [a + Split(b)[0]] + Split(b)[1..]
    decreases |a|
  {
    if a != [] {
      assert (a + b)[1..] == a[1..] + b;
      SplitPrefix(a[1..], b);
      assert [a[0]] + (a[1..] + Split(b)[0]) == a + Split(b)[0];
    } else {
      assert a + b == b;
      assert a + Split(b)[0] == Split(b)[0];
      assert Split(b) == [Split(b)[0]] + Split(b)[1..];
    }
  }

  /** Splitting a join gives back the pieces, provided none has a comma. */
  lemma {:induction false} SplitJoin(parts: seq<string>)
    requires |parts| >= 1 && NoCommas(parts)
    ensures Split(Join(parts)) == parts
    decreases |parts|
  {
    if |parts| == 1 {
      SplitPrefix(parts[0], []);
      assert parts[0] + [] == parts[0];
    } else {
      var rest := parts[1..];
      SplitJoin(rest);
      var r := "," + Join(rest);
      assert r[1..] == Join(rest);
      assert Split(r) == [[]] + rest;
      SplitPrefix(parts[0], r);
      assert parts[0] + [] == parts[0];
      assert parts[0] + "," + Join(rest) == parts[0] + r;
    }
  }

  /** Joining the pieces of a split gives back the string. */
  lemma {:induction false} JoinSplit(s: string)
    ensures Join(Split(s)) == s
    decreases |s|
  {
    if s != [] {
      var tail := Split(s[1..]);
      JoinSplit(s[1..]);
      if s[0] == ',' {
        assert ([[]] + tail)[1..] == tail;
      } else {
        var parts := [[s[0]] + tail[0]] + tail[1..];
        if |tail| > 1 {
          assert parts[1..] == tail[1..];
        }
      }
    }
  }

  /** set(parts): the distinct pieces. */
  function Elems(parts: seq<string>): set<string> {
    set x | x in parts
  }

  // ------------------------------------------------------------------- parsing

  /** A parsed row: the song list after the parse step, with the vote column
      turned into a set (empty for a two-field row) and any fourth field
      kept in rest. */
  datatype Song = Song(name: string, file: string, votes: set<string>, rest: seq<string>)

  predicate ValidRow(row: seq<string>) {
    2 <= |row| <= 4
  }

  /** The songs a parse produces: votes hold no commas, at most one field
      follows them, and an empty vote set only comes from a two-field row. */
  predicate ValidSong(song: Song) {
    && (forall v :: v in song.votes ==> ',' !in v)
    && |song.rest| <= 1
    && (song.votes == {} ==> song.rest == [])
  }

  function ParseSong(row: seq<string>): (r: Option<Song>)
    ensures r.Some? <==> ValidRow(row)
    ensures r.Some? ==> ValidSong(r.value) && r.value.name == row[0] && r.value.file == row[1]
    ensures r.Some? ==> (r.value.votes == {} <==> |row| == 2)
  {
    if !ValidRow(row) then None
    else if |row| == 2 then Some(Song(row[0], row[1], {}, []))
    else
      var parts := Split(row[2]);
      assert parts[0] in Elems(parts);
      Some(Song(row[0], row[1], Elems(parts), row[3..]))
  }

  /** The number of distinct votes of a three- or four-field row. */
  function VoteCount(row: seq<string>): nat
    requires |row| >= 3
  {
    |Elems(Split(row[2]))|
  }

  /** Row c is the one the playlist plays: a three-field row with at least as
      many votes as every earlier three-field row and strictly more than
      every later one. Two- and four-field rows never compete. */
  predicate IsChosen(rows: seq<seq<string>>, c: nat) {
    && c < |rows| && |rows[c]| == 3
    && forall j :: 0 <= j < |rows| && |rows[j]| == 3 ==>
         (j < c ==> VoteCount(rows[j]) <= VoteCount(rows[c]))
         && (c < j ==> VoteCount(rows[j]) < VoteCount(rows[c]))
  }

  /** At most one row is chosen. */
  lemma ChosenUnique(rows: seq<seq<string>>, a: nat, b: nat)
    requires IsChosen(rows, a) && IsChosen(rows, b)
    ensures a == b
  {
  }

  /** A row that does not beat the chosen one leaves it chosen. */
  lemma ChosenKept(rows: seq<seq<string>>, k: nat, c: nat)
    requires k < |rows| && IsChosen(rows[..k], c)
    requires |rows[k]| == 3 ==> VoteCount(rows[k]) < VoteCount(rows[c])
    ensures IsChosen(rows[..k + 1], c)
  {
    var pre, ext := rows[..k], rows[..k + 1];
    forall j | 0 <= j < |ext| && |ext[j]| == 3 && c < j
      ensures VoteCount(ext[j]) < VoteCount(ext[c])
    {
      if j < k {
        assert ext[j] == pre[j];
      }
    }
  }

  /** A three-field row with at least as many votes as the chosen one, or
      the first three-field row, becomes the chosen one. */
  lemma ChosenTaken(rows: seq<seq<string>>, k: nat, prev: Option<nat>)
    requires k < |rows| && |rows[k]| == 3
    requires prev.Some? ==> IsChosen(rows[..k], prev.value) && VoteCount(rows[prev.value]) <= VoteCount(rows[k])
    requires prev.None? ==> forall j :: 0 <= j < k ==> |rows[j]| != 3
    ensures IsChosen(rows[..k + 1], k)
  {
    var pre, ext := rows[..k], rows[..k + 1];
    forall j | 0 <= j < k && |ext[j]| == 3
      ensures VoteCount(ext[j]) <= VoteCount(ext[k])
    {
      assert ext[j] == pre[j];
      if prev.Some? && j != prev.value {
        assert prev.value < |pre|;
      }
    }
  }

  datatype Parsed = Parsed(songs: seq<Song>, chosen: Option<nat>)

  /** The parse loop: fails with the index of the first row that has fewer
      than two or more than four fields; otherwise gives one song per row and
      the chosen row, if any row has exactly three fields. */
  method Parse(rows: seq<seq<string>>) returns (r: Result<Parsed, nat>)
    ensures r.Failure? ==> r.error < |rows| && !ValidRow(rows[r.error])
    ensures r.Failure? ==> forall j :: 0 <= j < r.error ==> ValidRow(rows[j])
    ensures r.Success? ==> |r.value.songs| == |rows|
    ensures r.Success? ==> forall j :: 0 <= j < |rows| ==> ParseSong(rows[j]) == Some(r.value.songs[j])
    ensures r.Success? && r.value.chosen.Some? ==> IsChosen(rows, r.value.chosen.value)
    ensures r.Success? && r.value.chosen.None? ==> forall j :: 0 <= j < |rows| ==> |rows[j]| != 3
  {
    var songs: seq<Song> := [];
    var best: Option<nat> := None;
    var bestSize: nat := 0;
    var k := 0;
    while k < |rows|
      invariant 0 <= k <= |rows| && |songs| == k
      invariant forall j :: 0 <= j < k ==> ParseSong(rows[j]) == Some(songs[j])
      invariant best.Some? ==> best.value < k && IsChosen(rows[..k], best.value)
      invariant best.Some? ==> bestSize == VoteCount(rows[best.value])
      invariant best.None? ==> bestSize == 0 && forall j :: 0 <= j < k ==> |rows[j]| != 3
    {
      var row := rows[k];
      if |row| < 2 || |row| > 4 {
        forall j | 0 <= j < k
          ensures ValidRow(rows[j])
        {
          assert ParseSong(rows[j]).Some?;
        }
        return Failure(k);
      }
      var song;
      if |row| == 2 {
        song := Song(row[0], row[1], {}, []);
      } else {
        var votes := Elems(Split(row[2]));
        song := Song(row[0], row[1], votes, row[3..]);
        if |row| == 3 && |votes| >= bestSize {
          ChosenTaken(rows, k, best);
          best := Some(k);
          bestSize := |votes|;
        } else if best.Some? {
          ChosenKept(rows, k, best.value);
        }
      }
      if |row| == 2 && best.Some? {
        ChosenKept(rows, k, best.value);
      }
      songs := songs + [song];
      k := k + 1;
    }
    assert rows[..k] == rows;
    return Success(Parsed(songs, best));
  }

  // ----------------------------------------------------------------- rewrite

  /** ','.join(votes): the votes in some order, each once. Python leaves the
      order of a set unspecified, so any order is allowed here. */
  method JoinVotes(votes: set<string>) returns (s: string)
    requires votes != {} && forall v :: v in votes ==> ',' !in v
    ensures Elems(Split(s)) == votes && |Split(s)| == |votes|
  {
    var parts: seq<string> := [];
    var left := votes;
    while left != {}
      invariant Elems(parts) + left == votes && Elems(parts) !! left
      invariant |parts| + |left| == |votes|
      invariant NoCommas(parts)
      decreases |left|
    {
      var v :| v in left;
      assert Elems(parts + [v]) == Elems(parts) + {v};
      parts := parts + [v];
      left := left - {v};
    }
    assert |parts| >= 1;
    s := Join(parts);
    SplitJoin(parts);
  }

  /** What follows the vote column once written back: the marker is appended
      to every row for the playing file that has nothing after its votes
      (including rows that had no vote column). */
  function Tail(song: Song, playing: string): seq<string> {
    if song.file == playing && song.rest == [] then [PlayingMark] else song.rest
  }

  /** The row written back for a song: name and file, then the votes joined
      by commas unless there are none, then the tail. */
  predicate RewrittenRow(song: Song, playing: string, row: seq<string>) {
    && |row| >= 2 && row[0] == song.name && row[1] == song.file
    && if song.votes == {} then row[2..] == Tail(song, playing)
       else
         && |row| >= 3
         && Elems(Split(row[2])) == song.votes && |Split(row[2])| == |song.votes|
         && row[3..] == Tail(song, playing)
  }

  /** The write-back loop over the parsed songs. */
  method Rewrite(songs: seq<Song>, playing: string) returns (rows: seq<seq<string>>)
    requires forall k :: 0 <= k < |songs| ==> ValidSong(songs[k])
    ensures |rows| == |songs|
    ensures forall k :: 0 <= k < |songs| ==> RewrittenRow(songs[k], playing, rows[k])
  {
    rows := [];
    var k := 0;
    while k < |songs|
      invariant 0 <= k <= |songs| && |rows| == k
      invariant forall j :: 0 <= j < k ==> RewrittenRow(songs[j], playing, rows[j])
    {
      var song := songs[k];
      var row := [song.name, song.file];
      if song.votes != {} {
        var joined := JoinVotes(song.votes);
        row := row + [joined];
      }
      if song.file == playing && song.rest == [] {
        row := row + [PlayingMark];
      } else {
        row := row + song.rest;
      }
      rows := rows + [row];
      k := k + 1;
    }
  }

  /** Every written row is again a valid playlist row. */
  lemma RewrittenValid(song: Song, playing: string, row: seq<string>)
    requires ValidSong(song) && RewrittenRow(song, playing, row)
    ensures ValidRow(row)
  {
    assert |row| == 2 + (if song.votes == {} then 0 else 1) + |Tail(song, playing)|;
  }

  /** Reading a written row back gives the same song, with the marker now in
      its tail, whenever the song had votes or is not marked. */
  lemma RewriteRoundTrip(song: Song, playing: string, row: seq<string>)
    requires ValidSong(song) && RewrittenRow(song, playing, row)
    requires song.votes != {} || Tail(song, playing) == []
    ensures ParseSong(row) == Some(song.(rest := Tail(song, playing)))
  {
    RewrittenValid(song, playing, row);
    if song.votes == {} {
      assert |row| == 2;
    } else {
      assert row[3..] == Tail(song, playing);
    }
  }

  /** A song without votes that is being played is written as a three-field
      row whose vote column is the marker, so reading it back counts the
      marker as its one vote. */
  lemma MarkerBecomesVote(song: Song, playing: string, row: seq<string>)
    requires ValidSong(song) && RewrittenRow(song, playing, row)
    requires song.votes == {} && song.file == playing
    ensures row == [song.name, song.file, PlayingMark]
    ensures ParseSong(row) == Some(Song(song.name, song.file, {PlayingMark}, []))
  {
    assert row == [row[0], row[1]] + row[2..];
    ParseOneVote(song.name, song.file, PlayingMark);
  }

  /** A three-field row whose vote column has no comma has that one vote. */
  lemma ParseOneVote(name: string, file: string, vote: string)
    requires ',' !in vote
    ensures ParseSong([name, file, vote]) == Some(Song(name, file, {vote}, []))
  {
    var row := [name, file, vote];
    SplitPrefix(vote, []);
    assert vote + [] == vote;
    assert Split(row[2]) == [vote];
    assert Elems([vote]) == {vote};
    assert row[3..] == [];
  }

  /** Every three-field row for the playing file, the chosen one among them,
      is written with four fields ending in the marker, so it can never be
      chosen again. */
  lemma VotedRowMarked(row: seq<string>, playing: string, written: seq<string>)
    requires |row| == 3 && row[1] == playing
    requires RewrittenRow(ParseSong(row).value, playing, written)
    ensures |written| == 4 && written[3] == PlayingMark
  {
    var song := ParseSong(row).value;
    assert song.rest == [] && song.votes != {};
    assert written[3..] == [PlayingMark];
  }

  // -------------------------------------------------------------- top level

  datatype Selection =
    | InvalidPlaylist(row: nat)
    | NoVotedSong(songs: seq<Song>)
    | Selected(file: string, written: seq<seq<string>>)

  /** The whole --playlist step: parse, choose, and when a song was chosen,
      the rows written back. Without a three-field row a song is picked at
      random from the returned songs, which this model does not do. */
  method ChooseFromPlaylist(rows: seq<seq<string>>) returns (s: Selection)
    ensures s.InvalidPlaylist? <==> exists j :: 0 <= j < |rows| && !ValidRow(rows[j])
    ensures s.InvalidPlaylist? ==>
      && s.row < |rows| && !ValidRow(rows[s.row])
      && forall j :: 0 <= j < s.row ==> ValidRow(rows[j])
    ensures s.NoVotedSong? ==> forall j :: 0 <= j < |rows| ==> |rows[j]| == 2 || |rows[j]| == 4
    ensures s.NoVotedSong? ==>
      && |s.songs| == |rows|
      && forall j :: 0 <= j < |rows| ==> ParseSong(rows[j]) == Some(s.songs[j])
    ensures s.Selected? ==> exists c: nat :: IsChosen(rows, c) && s.file == rows[c][1]
    ensures s.Selected? ==>
      && |s.written| == |rows|
      && forall j :: 0 <= j < |rows| ==> RewrittenRow(ParseSong(rows[j]).value, s.file, s.written[j])
  {
    var r := Parse(rows);
    if r.Failure? {
      return InvalidPlaylist(r.error);
    }
    var p := r.value;
    assert forall j :: 0 <= j < |rows| ==> ValidRow(rows[j]) by {
      forall j | 0 <= j < |rows|
        ensures ValidRow(rows[j])
      {
        assert ParseSong(rows[j]).Some?;
      }
    }
    if p.chosen.None? {
      return NoVotedSong(p.songs);
    }
    var c := p.chosen.value;
    var file := p.songs[c].file;
    forall k | 0 <= k < |p.songs|
      ensures ValidSong(p.songs[k])
    {
      assert ParseSong(rows[k]) == Some(p.songs[k]);
    }
    var written := Rewrite(p.songs, file);
    s := Selected(file, written);
  }
}
