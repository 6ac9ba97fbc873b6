// The music commands' own logic: artist names, the paged track list,
// picking tracks from a search, inserting them into the queue, removing
// one, the volume bounds and the seek position.

module Music {
  import opened Wrappers
  import opened Decimal
  import opened TrackDropdown

  // ---------------------------------------------------------------------
  // Artist names

  /** `s` ends with `suffix`. */
  predicate EndsWith(s: string, suffix: string) {
    |suffix| <= |s| && s[|s| - |suffix|..] == suffix
  }

  /** Python's `s.removesuffix(suffix)`: one trailing copy of `suffix` is dropped, if there is one. */
  function RemoveSuffix(s: string, suffix: string): (r: string)
    ensures EndsWith(s, suffix) ==> r + suffix == s
    ensures !EndsWith(s, suffix) ==> r == s
  {
    if EndsWith(s, suffix) then s[..|s| - |suffix|] else s
  }

  const TopicSuffix: string := " - Topic"

  /**
   * `resolve_artist_name`: "N/A" for an empty name; otherwise the name after
   * markdown escaping (`escape`, a library function passed in), with at most
   * one trailing " - Topic" removed.
   */
  function ResolveArtistName(name: string, escape: string -> string): (r: string)
    ensures name == "" ==> r == "N/A"
    ensures name != "" && EndsWith(escape(name), TopicSuffix) ==> r + TopicSuffix == escape(name)
    ensures name != "" && !EndsWith(escape(name), TopicSuffix) ==> r == escape(name)
  {
    if name == "" then "N/A" else RemoveSuffix(escape(name), TopicSuffix)
  }

  /** Only one " - Topic" goes: a name ending in it twice keeps the first. */
  lemma OnlyOneTopicRemoved(artist: string)
    ensures ResolveArtistName(artist + TopicSuffix + TopicSuffix, s => s) == artist + TopicSuffix
  {
    var s := artist + TopicSuffix + TopicSuffix;
    assert s[|s| - |TopicSuffix|..] == TopicSuffix;
    assert s[..|s| - |TopicSuffix|] == artist + TopicSuffix;
  }

  // ---------------------------------------------------------------------
  // The paged track list

  /** The uri shown for a track: "N/A" when it has none or it is empty. */
  function UriText(t: Track): string {
    if t.uri.Some? && t.uri.value != "" then t.uri.value else "N/A"
  }

  /** The line of the track numbered `i`: "i - [title by artist](uri)" and a newline. */
  function TrackLine(i: nat, t: Track, escape: string -> string): (r: string)
    ensures NatToString(i) + " - [" <= r && r[|r| - 1] == '\n'
  {
    NatToString(i) + " - [" + t.title + " by " + ResolveArtistName(t.author, escape) + "](" + UriText(t) + ")\n"
  }

  /** The lines of a track list, numbered from 1 in list order. */
  function Lines(tracks: seq<Track>, escape: string -> string): (r: seq<string>)
    ensures |r| == |tracks|
    ensures forall k :: 0 <= k < |tracks| ==> r[k] == TrackLine(k + 1, tracks[k], escape)
  {
    seq(|tracks|, (k: int) requires 0 <= k < |tracks| => TrackLine(k + 1, tracks[k], escape))
  }

  /** An embed description holds at most this many characters. */
  const PageLimit: nat := 2048

  /** The paging loop's state: the finished pages and the text of the page being filled. */
  datatype Paging = Paging(pages: seq<string>, txt: string)

  /** One step of the paging loop: a line that would overflow the page closes it and starts the next one. */
  function Feed(p: Paging, line: string): Paging {
    if |p.txt| + |line| > PageLimit then Paging(p.pages + [p.txt], line) else Paging(p.pages, p.txt + line)
  }

  /** The paging loop's state after all of `lines`. */
  function FeedAll(lines: seq<string>): Paging {
    if lines == [] then Paging([], "") else Feed(FeedAll(lines[..|lines| - 1]), lines[|lines| - 1])
  }

  /** The page descriptions of a list of lines: the finished pages and the last one. */
  function Paginate(lines: seq<string>): (r: seq<string>)
    ensures |r| >= 1
  {
    var p := FeedAll(lines);
    p.pages + [p.txt]
  }

  /** The concatenation of a list of strings. */
  function Concat(s: seq<string>): string {
    if s == [] then "" else Concat(s[..|s| - 1]) + s[|s| - 1]
  }

  /** A page is within the limit, or it is one of the lines (a single line longer than the limit). */
  predicate Fits(page: string, lines: seq<string>) {
    |page| <= PageLimit || page in lines
  }

  /** The paging loop loses no text: its pages and its current text make up the lines read so far. */
  lemma {:induction false} FeedAllKeepsText(lines: seq<string>)
    ensures Concat(FeedAll(lines).pages) + FeedAll(lines).txt == Concat(lines)
  {
    if lines != [] {
      var init, line := lines[..|lines| - 1], lines[|lines| - 1];
      FeedAllKeepsText(init);
      var p := FeedAll(init);
      if |p.txt| + |line| > PageLimit {
        assert (p.pages + [p.txt])[..|p.pages|] == p.pages;
        assert Concat(p.pages + [p.txt]) == Concat(p.pages) + p.txt;
      } else {
        assert Concat(p.pages) + (p.txt + line) == (Concat(p.pages) + p.txt) + line;
      }
    }
  }

  /** Every page the paging loop builds fits, and so does its current text. */
  lemma {:induction false} FeedAllFits(lines: seq<string>)
    ensures forall k :: 0 <= k < |FeedAll(lines).pages| ==> Fits(FeedAll(lines).pages[k], lines)
    ensures Fits(FeedAll(lines).txt, lines)
  {
    if lines != [] {
      var init, line := lines[..|lines| - 1], lines[|lines| - 1];
      FeedAllFits(init);
      assert lines == init + [line];
      assert forall x :: x in init ==> x in lines;
    }
  }

  /** Concatenating the page descriptions gives back all the lines, in order. */
  lemma PaginateKeepsText(lines: seq<string>)
    ensures Concat(Paginate(lines)) == Concat(lines)
  {
    FeedAllKeepsText(lines);
    var p := FeedAll(lines);
    assert (p.pages + [p.txt])[..|p.pages|] == p.pages;
  }

  /** Every page is at most 2048 characters, unless it is a single line that is longer on its own. */
  lemma PaginatePagesFit(lines: seq<string>)
    ensures forall k :: 0 <= k < |Paginate(lines)| ==> Fits(Paginate(lines)[k], lines)
  {
    FeedAllFits(lines);
  }

  /** A first line over the limit closes the still empty first page: the list starts with an empty page. */
  lemma LongFirstLineLeavesEmptyPage(line: string)
    requires |line| > PageLimit
    ensures Paginate([line]) == ["", line]
  {
    assert [line][..0] == [];
    assert FeedAll([line]) == Feed(Paging([], ""), line) == Paging([""], line);
  }

  /** The paging loop's state after one more line. */
  lemma FeedAllStep(lines: seq<string>, i: nat)
    requires i < |lines|
    ensures FeedAll(lines[..i + 1]) == Feed(FeedAll(lines[..i]), lines[i])
  {
    assert lines[..i + 1][..i] == lines[..i];
  }

  /** What `generate_embeds_from_tracks` is given. */
  datatype TrackSource = QueueSource(tracks: seq<Track>) | ListSource(tracks: seq<Track>)
                       | PlaylistSource(tracks: seq<Track>) | OtherSource

  /** `generate_embeds_from_tracks`: no pages for anything but a queue, list or playlist; otherwise the pages of its lines. */
  method GenerateEmbeds(source: TrackSource, escape: string -> string) returns (pages: seq<string>)
    ensures source.OtherSource? ==> pages == []
    ensures !source.OtherSource? ==> pages == Paginate(Lines(source.tracks, escape))
  {
    if source.OtherSource? {
      return [];
    }
    var tracks := source.tracks;
    ghost var lines := Lines(tracks, escape);
    var txt := "";
    pages := [];
    var i := 0;
    while i < |tracks|
      invariant 0 <= i <= |tracks|
      invariant Paging(pages, txt) == FeedAll(lines[..i])
    {
      var upcoming := TrackLine(i + 1, tracks[i], escape);
      FeedAllStep(lines, i);
      if |txt| + |upcoming| > PageLimit {
        pages := pages + [txt];
        txt := upcoming;
      } else {
        txt := txt + upcoming;
      }
      i := i + 1;
    }
    assert lines[..i] == lines;
    pages := pages + [txt];
  }

  // ---------------------------------------------------------------------
  // Picking tracks from a search

  /** The tracks that are not streams, in order: the tracks the picker offers. */
  function Streamless(tracks: seq<Track>): (r: seq<Track>)
    ensures |r| <= |tracks|
    ensures forall t :: t in r <==> t in tracks && !t.isStream
  {
    if tracks == [] then []
    else (if tracks[0].isStream then [] else [tracks[0]]) + Streamless(tracks[1..])
  }

  /** What the picker gave back: nothing before the timeout, or the selected option values. */
  datatype PickResponse = TimedOut | Picked(values: seq<string>)

  /** The picker returns at most `MaxValues` values, each the value of one of its own options (those built from `offered`). */
  predicate FromPicker(offered: seq<Track>, response: PickResponse) {
    response.Picked? ==>
      |response.values| <= MaxValues && forall v :: v in response.values ==> v in Values(Options(offered))
  }

  /** The tracks of `from` at the indices the selected values name, in selection order. */
  function Choose(from: seq<Track>, offered: seq<Track>, values: seq<string>): (r: seq<Track>)
    requires forall v :: v in values ==> v in Values(Options(offered)) && v != Nope
    requires Min(|offered|, MaxTrackOptions) <= |from|
    ensures |r| == |values|
    ensures forall k :: 0 <= k < |values| ==>
              ParseNat(values[k]).Some? && ParseNat(values[k]).value < Min(|offered|, MaxTrackOptions)
              && r[k] == from[ParseNat(values[k]).value]
  {
    if values == [] then []
    else
      SelectedValueInRange(offered, values[0]);
      var rest := Choose(from, offered, values[1..]);
      var r := [from[ParseNat(values[0]).value]] + rest;
      assert forall k :: 1 <= k < |values| ==> values[k] == values[1..][k - 1] && r[k] == rest[k - 1];
      r
  }

  /**
   * `pick_track_from_results` as written: a single result is taken as it is;
   * a timeout, an empty selection or "Nope" gives nothing; otherwise the
   * selected indices are looked up in the full result list, although the
   * picker numbered the stream-free list.
   */
  function PickAsWritten(tracks: seq<Track>, response: PickResponse): (r: seq<Track>)
    requires FromPicker(Streamless(tracks), response)
  {
    if |tracks| == 1 then tracks
    else match response
      case TimedOut => []
      case Picked(values) =>
        if values == [] || Nope in values then []
        else Choose(tracks, Streamless(tracks), values)
  }

  /** The selection looked up in the list the picker showed. */
  function Pick(tracks: seq<Track>, response: PickResponse): (r: seq<Track>)
    requires FromPicker(Streamless(tracks), response)
    ensures |tracks| == 1 ==> r == tracks
    ensures |tracks| != 1 && (response.TimedOut? || response.values == [] || Nope in response.values) ==> r == []
  {
    if |tracks| == 1 then tracks
    else match response
      case TimedOut => []
      case Picked(values) =>
        if values == [] || Nope in values then []
        else Choose(Streamless(tracks), Streamless(tracks), values)
  }

  /** A value the picker returned that reads as index `i` is the value of the option after the `i`-th. */
  lemma ValueNamesOption(offered: seq<Track>, v: string, i: nat)
    requires v in Values(Options(offered)) && ParseNat(v) == Some(i)
    ensures i + 1 < |Options(offered)| && Options(offered)[i + 1].value == v
  {
    var opts := Options(offered);
    OptionValuesIdentifyTracks(offered);
    var j :| 0 <= j < |opts| && Values(opts)[j] == v;
    assert opts[j].value == v;
    assert j == i + 1;
  }

  /** `t` is a track the picker showed, not a stream, on the option whose value is `v`. */
  predicate ShownFor(offered: seq<Track>, v: string, t: Track) {
    var opts := Options(offered);
    ParseNat(v).Some? && ParseNat(v).value + 1 < |opts| && ParseNat(v).value < |offered|
    && opts[ParseNat(v).value + 1].value == v && t == offered[ParseNat(v).value] && !t.isStream
  }

  /** Each picked track is the track of the option that was selected, and never a stream. */
  lemma PickReturnsShownTracks(tracks: seq<Track>, values: seq<string>)
    requires |tracks| != 1 && values != [] && Nope !in values
    requires FromPicker(Streamless(tracks), Picked(values))
    ensures |Pick(tracks, Picked(values))| == |values| <= MaxValues
    ensures forall k :: 0 <= k < |values| ==>
              ShownFor(Streamless(tracks), values[k], Pick(tracks, Picked(values))[k])
  {
    var offered := Streamless(tracks);
    var r := Choose(offered, offered, values);
    assert Pick(tracks, Picked(values)) == r;
    forall k | 0 <= k < |values|
      ensures ShownFor(offered, values[k], r[k])
    {
      var i := ParseNat(values[k]).value;
      assert r[k] == offered[i];
      assert offered[i] in offered;
      ValueNamesOption(offered, values[k], i);
    }
  }

  /** With a stream ahead of a song, choosing the song's option returns the stream. */
  lemma PickAsWrittenReturnsWrongTrack(stream: Track, song: Track)
    requires stream.isStream && !song.isStream
    ensures FromPicker(Streamless([stream, song]), Picked(["0"]))
    ensures PickAsWritten([stream, song], Picked(["0"])) == [stream]
    ensures Pick([stream, song], Picked(["0"])) == [song]
  {
    assert [stream, song][1..] == [song];
    assert [song][1..] == [];
    assert Streamless([song]) == [song];
    assert Streamless([stream, song]) == [song];
    var opts := Options([song]);
    assert opts[1].value == NatToString(0) == "0";
    assert Values(opts)[1] == "0";
    ParseNatToString(0);
  }

  // ---------------------------------------------------------------------
  // The player

  /** Where `play` inserts: at the end for a position of 0 or less, else at the position, clamped to the queue's end as a slice assignment does. */
  function InsertionIndex(position: int, len: nat): (k: nat)
    ensures k <= len
    ensures position <= 0 || position >= len ==> k == len
    ensures 0 < position <= len ==> k == position
  {
    var p := if position < 0 then 0 else position;
    if p == 0 then len else if p < len then p else len
  }

  /** A list in reverse order (Python's `list.reverse`). */
  function Reversed<T>(s: seq<T>): (r: seq<T>)
    ensures |r| == |s|
    ensures forall k :: 0 <= k < |s| ==> r[k] == s[|s| - 1 - k]
  {
    seq(|s|, (k: int) requires 0 <= k < |s| => s[|s| - 1 - k])
  }

  /** Python's `queue.remove(x)` on the queue's items: the first item equal to `x` is dropped. */
  function RemoveFirst(q: seq<Track>, x: Track): seq<Track> {
    if q == [] then [] else if q[0] == x then q[1..] else [q[0]] + RemoveFirst(q[1..], x)
  }

  /** Removing the item at position `i` by value drops exactly that position when no earlier item equals it. */
  lemma {:induction false} RemoveFirstAt(q: seq<Track>, i: nat)
    requires i < |q| && forall j :: 0 <= j < i ==> q[j] != q[i]
    ensures RemoveFirst(q, q[i]) == q[..i] + q[i + 1..]
  {
    if i > 0 {
      assert q[1..][i - 1] == q[i];
      RemoveFirstAt(q[1..], i - 1);
      assert q[1..][..i - 1] == q[1..i];
      assert q[1..][i..] == q[i + 1..];
      assert [q[0]] + q[1..i] == q[..i];
    }
  }

  /** Removing by value always drops exactly one copy of the item. */
  lemma {:induction false} RemoveFirstDropsOne(q: seq<Track>, x: Track)
    requires x in q
    ensures multiset(RemoveFirst(q, x)) == multiset(q) - multiset{x}
    ensures |RemoveFirst(q, x)| == |q| - 1
  {
    assert q == [q[0]] + q[1..];
    if q[0] != x {
      RemoveFirstDropsOne(q[1..], x);
    }
  }

  /** With the same track queued twice, removing the later position drops the earlier copy. */
  lemma RemoveDropsEarlierDuplicate(a: Track, b: Track)
    requires a != b
    ensures RemoveFirst([a, b, a], [a, b, a][2]) == [b, a]
    ensures [a, b, a][..2] + [a, b, a][3..] == [a, b]
  {
    assert [a, b, a][1..] == [b, a];
  }

  /** What a search returned; an empty playlist is as falsy as an empty result list. */
  datatype Search = NoResults | PlaylistResult(name: string, tracks: seq<Track>) | TrackResults(tracks: seq<Track>)

  /** What `play` did. */
  datatype PlayOutcome = NothingFound | NothingPicked | Added(tracks: seq<Track>, at: nat)

  /** What `remove` did. */
  datatype RemoveOutcome = QueueEmpty | InvalidIndex | Removed

  /** The tracks `play` is about to add, before any reversal: a whole playlist, or the pick from several results. */
  function Chosen(search: Search, response: PickResponse): seq<Track>
    requires search.TrackResults? ==> FromPicker(Streamless(search.tracks), response)
  {
    match search
    case NoResults => []
    case PlaylistResult(_, tracks) => tracks
    case TrackResults(tracks) => Pick(tracks, response)
  }

  /** The queue after `tracks` go in as one block at index `at`, the queued tracks keeping their order. */
  function InsertBlock(q: seq<Track>, at: nat, tracks: seq<Track>): (r: seq<Track>)
    requires at <= |q|
    ensures |r| == |q| + |tracks|
    ensures r[..at] == q[..at] && r[at..at + |tracks|] == tracks && r[at + |tracks|..] == q[at..]
  {
    q[..at] + tracks + q[at..]
  }

  /** A guild's player: the track playing, if any, its queue of upcoming tracks and its volume. */
  class Player {
    var current: Option<Track>
    var queue: seq<Track>
    var volume: int

    constructor (current: Option<Track>, queue: seq<Track>, volume: int)
      ensures this.current == current && this.queue == queue && this.volume == volume
    {
      this.current := current;
      this.queue := queue;
      this.volume := volume;
    }

    /** The queueing step of `play`: at the end for a position of 0 or less, else as a slice assignment at the position. */
    method Enqueue(tracks: seq<Track>, position: int) returns (at: nat)
      modifies this
      ensures at == InsertionIndex(position, |old(queue)|)
      ensures queue == InsertBlock(old(queue), at, tracks)
      ensures current == old(current) && volume == old(volume)
    {
      var positionToAdd := if position < 0 then 0 else position;
      if positionToAdd == 0 {
        at := |queue|;
        assert queue[at..] == [] && queue[..at] == queue;
        queue := queue + tracks;
      } else {
        at := if positionToAdd < |queue| then positionToAdd else |queue|;
        queue := InsertBlock(queue, at, tracks);
      }
    }

    /** The last step of `play`: an idle player takes the head of the queue off and plays it. */
    method StartIfIdle()
      requires queue != []
      modifies this
      ensures old(current).Some? ==> current == old(current) && queue == old(queue)
      ensures old(current).None? ==> current == Some(old(queue)[0]) && queue == old(queue)[1..]
      ensures volume == old(volume)
    {
      if current.None? {
        current := Some(queue[0]);
        queue := queue[1..];
      }
    }

    /**
     * `play`: nothing for an empty search (no results, an empty list or an
     * empty playlist) or an empty pick; otherwise the chosen tracks, reversed
     * when asked, go into the queue as one block at the insertion index, and
     * an idle player then starts the head of the queue, taking it off.
     */
    method Play(search: Search, response: PickResponse, position: int, reverse: bool) returns (r: PlayOutcome)
      requires search.TrackResults? ==> FromPicker(Streamless(search.tracks), response)
      modifies this
      ensures volume == old(volume)
      ensures r.NothingFound? <==> search.NoResults? || search.tracks == []
      ensures r.NothingPicked? <==> search.TrackResults? && search.tracks != [] && Chosen(search, response) == []
      ensures !r.Added? ==> queue == old(queue) && current == old(current)
      ensures r.Added? ==>
                r.tracks == (if reverse then Reversed(Chosen(search, response)) else Chosen(search, response))
                && r.tracks != []
                && r.at == InsertionIndex(position, |old(queue)|)
      ensures r.Added? && old(current).Some? ==>
                current == old(current) && queue == InsertBlock(old(queue), r.at, r.tracks)
      ensures r.Added? && old(current).None? ==>
                current.Some? && [current.value] + queue == InsertBlock(old(queue), r.at, r.tracks)
    {
      if search.NoResults? || search.tracks == [] {
        return NothingFound;
      }
      var soonAdded: seq<Track>;
      if search.PlaylistResult? {
        soonAdded := search.tracks;
      } else {
        soonAdded := Pick(search.tracks, response);
        if soonAdded == [] {
          return NothingPicked;
        }
      }
      if reverse {
        soonAdded := Reversed(soonAdded);
      }
      var at := Enqueue(soonAdded, position);
      ghost var joined := queue;
      StartIfIdle();
      assert old(current).None? ==> [current.value] + queue == joined;
      r := Added(soonAdded, at);
    }

    /** `remove`: refuse on an empty queue or an index outside 1..len; otherwise remove the item at `index - 1` by value. */
    method Remove(index: int) returns (r: RemoveOutcome)
      modifies this
      ensures volume == old(volume)
      ensures r == QueueEmpty <==> old(queue) == []
      ensures r == InvalidIndex <==> old(queue) != [] && !(1 <= index <= |old(queue)|)
      ensures r == Removed ==> queue == RemoveFirst(old(queue), old(queue)[index - 1])
      ensures r != Removed ==> queue == old(queue)
      ensures current == old(current)
    {
      if queue == [] {
        return QueueEmpty;
      }
      if index < 1 || index > |queue| {
        return InvalidIndex;
      }
      queue := RemoveFirst(queue, queue[index - 1]);
      r := Removed;
    }

    /** `volume`: a volume outside 0..200 is refused and nothing changes. */
    method SetVolume(v: int) returns (ok: bool)
      modifies this
      ensures ok <==> 0 <= v <= 200
      ensures volume == if ok then v else old(volume)
      ensures queue == old(queue) && current == old(current)
    {
      if v < 0 || v > 200 {
        return false;
      }
      volume := v;
      ok := true;
    }
  }

  /** A removal accepted by `remove` shortens the queue by one and drops one copy of the track at `index - 1`. */
  lemma RemoveDropsOneCopy(q: seq<Track>, index: int)
    requires 1 <= index <= |q|
    ensures multiset(RemoveFirst(q, q[index - 1])) == multiset(q) - multiset{q[index - 1]}
    ensures |RemoveFirst(q, q[index - 1])| == |q| - 1
  {
    RemoveFirstDropsOne(q, q[index - 1]);
  }

  // ---------------------------------------------------------------------
  // Seeking

  /** The integer branch of `seek`: the position in milliseconds. */
  function SeekPosition(hours: int, minutes: int, seconds: int, milliseconds: int): int {
    (hours * 3600 + minutes * 60 + seconds) * 1000 + milliseconds
  }

  /** For components in their clock ranges, the position reads back as hours, minutes, seconds and milliseconds. */
  lemma SeekPositionDecomposes(hours: nat, minutes: nat, seconds: nat, milliseconds: nat)
    requires minutes < 60 && seconds < 60 && milliseconds < 1000
    ensures var p := SeekPosition(hours, minutes, seconds, milliseconds);
            p % 1000 == milliseconds && (p / 1000) % 60 == seconds
            && (p / 60000) % 60 == minutes && p / 3600000 == hours
  {
    var p := SeekPosition(hours, minutes, seconds, milliseconds);
    var totalSeconds := hours * 3600 + minutes * 60 + seconds;
    assert p == totalSeconds * 1000 + milliseconds;
    assert p / 1000 == totalSeconds;
    var totalMinutes := hours * 60 + minutes;
    assert totalSeconds == totalMinutes * 60 + seconds;
    assert totalSeconds % 60 == seconds;
    assert p / 60000 == totalSeconds / 60 == totalMinutes;
    assert totalMinutes % 60 == minutes;
    assert p / 3600000 == totalMinutes / 60 == hours;
  }
}
