// The track picker: the dropdown offered when a search returns several
// tracks, one "Nope" option followed by one option per track.

module TrackDropdown {
  import opened Wrappers
  import opened Decimal

  /** A playable track as far as the bot looks at it. */
  datatype Track = Track(title: string, author: string, uri: Option<string>, isStream: bool)

  /** One option of a select menu. */
  datatype SelectOption = SelectOption(caption: string, description: string, value: string)

  /** The picker returns at most this many values. */
  const MaxValues: nat := 10

  /** At most this many tracks get an option. */
  const MaxTrackOptions: nat := 25

  /** Labels and descriptions are cut to this many characters. */
  const MaxText: nat := 100

  /** The value of the option that cancels the pick. */
  const Nope: string := "Nope"

  function Min(a: nat, b: nat): nat {
    if a <= b then a else b
  }

  /** Python's `s[:n]`: the first `n` characters, or all of `s` when it is shorter. */
  function Truncate(s: string, n: nat): (r: string)
    ensures |r| == Min(|s|, n) && r == s[..|r|] && r <= s
  {
    if |s| <= n then s else s[..n]
  }

  /** The leading option that means "none of these". */
  const NopeOption: SelectOption := SelectOption("I don't see my results here", "Nothing here!", Nope)

  /**
   * `o` is the option for track `t` at position `index`: its value is the
   * index, its caption "author - title" cut to 100 characters, and its
   * description "No URI" when the track has no uri or an empty one, else the
   * uri cut to 100 characters.
   */
  predicate Describes(o: SelectOption, index: nat, t: Track) {
    o.value == NatToString(index)
    && o.caption == Truncate(t.author + " - " + t.title, MaxText)
    && o.description == (if t.uri.None? || t.uri.value == "" then "No URI" else Truncate(t.uri.value, MaxText))
  }

  /** The option of the track at position `index`. */
  function TrackOption(index: nat, t: Track): (r: SelectOption)
    ensures Describes(r, index, t)
    ensures |r.caption| <= MaxText && |r.description| <= MaxText
  {
    SelectOption(Truncate(t.author + " - " + t.title, MaxText),
                 if t.uri.Some? && t.uri.value != "" then Truncate(t.uri.value, MaxText) else "No URI",
                 NatToString(index))
  }

  /** The picker's options: "Nope" first, then one option per track for the first 25 tracks, in order. */
  function Options(tracks: seq<Track>): (r: seq<SelectOption>)
    ensures |r| == 1 + Min(|tracks|, MaxTrackOptions) && |r| <= 1 + MaxTrackOptions
    ensures r[0].value == Nope
    ensures forall k :: 0 <= k < |r| - 1 ==> Describes(r[k + 1], k, tracks[k]) && r[k + 1].value == NatToString(k)
  {
    var picks := seq(Min(|tracks|, MaxTrackOptions), (k: int) requires 0 <= k < Min(|tracks|, MaxTrackOptions) => TrackOption(k, tracks[k]));
    var r := [NopeOption] + picks;
    assert forall k :: 0 <= k < |picks| ==> r[k + 1] == picks[k];
    r
  }

  /** The values of all options. */
  function Values(options: seq<SelectOption>): seq<string> {
    seq(|options|, (k: int) requires 0 <= k < |options| => options[k].value)
  }

  /** "Nope" is no number, so it never reads as a track index. */
  lemma NopeIsNoIndex()
    ensures ParseNat(Nope).None?
  {
    assert !IsDigit(Nope[0]);
  }

  /**
   * Option values identify the tracks: "Nope" reads as no index, the value of
   * the option after the k-th reads back as k, and no two options share a value.
   */
  lemma OptionValuesIdentifyTracks(tracks: seq<Track>)
    ensures var r := Options(tracks);
            ParseNat(r[0].value).None?
            && (forall k :: 1 <= k < |r| ==> ParseNat(r[k].value) == Some(k - 1) && k - 1 < |tracks|)
            && (forall i, j :: 0 <= i < j < |r| ==> r[i].value != r[j].value)
  {
    var r := Options(tracks);
    NopeIsNoIndex();
    forall k | 1 <= k < |r|
      ensures ParseNat(r[k].value) == Some(k - 1)
    {
      assert r[k].value == NatToString(k - 1);
      ParseNatToString(k - 1);
    }
    forall i, j | 0 <= i < j < |r|
      ensures r[i].value != r[j].value
    {
      assert ParseNat(r[j].value) == Some(j - 1);
      if i > 0 {
        NatToStringInjective(i - 1, j - 1);
      }
    }
  }

  /** Each value the picker can return reads as `None` ("Nope") or as the index of a track that got an option. */
  lemma SelectedValueInRange(tracks: seq<Track>, v: string)
    requires v in Values(Options(tracks))
    ensures v == Nope || (ParseNat(v).Some? && ParseNat(v).value < Min(|tracks|, MaxTrackOptions))
  {
    var r := Options(tracks);
    OptionValuesIdentifyTracks(tracks);
    var k :| 0 <= k < |r| && Values(r)[k] == v;
    assert r[k].value == v;
  }
}
