// SponsorBlock category settings: a guild's category bit flags, the settings
// record decoded from them, the dropdown that picks a category, and the
// settings embed whose four fields show each category's state.

module SponsorBlock {
  import opened Wrappers
  import opened Decimal

  /** The category flags, one bit each (the four flags fit in 32 bits). */
  const Sponsor: bv32 := 1
  const SelfPromo: bv32 := 2
  const Preview: bv32 := 4
  const MusicOffTopic: bv32 := 8

  /** The flags in the order of the dropdown options and of the embed fields. */
  const Flags: seq<bv32> := [Sponsor, SelfPromo, Preview, MusicOffTopic]

  /** The option labels and embed field names, in the same order. */
  const Labels: seq<string> := ["Sponsor", "Selfpromo", "Preview", "Music Offtopic"]

  /** `flags & flag == flag`: every bit of `flag` is set in `flags`. */
  predicate IsSet(flags: bv32, flag: bv32) {
    flags & flag == flag
  }

  /** The four flags are the bits 0 to 3, so they are pairwise disjoint. */
  lemma FlagsAreDistinctBits()
    ensures forall i :: 0 <= i < |Flags| ==> Flags[i] == 1 << i
    ensures forall i, j :: 0 <= i < j < |Flags| ==> Flags[i] & Flags[j] == 0 && Flags[i] != Flags[j]
  {
  }

  // ---------------------------------------------------------------------
  // The settings record

  /** `SponsorBlockSettings`: the raw flags and one boolean per category. */
  datatype Settings = Settings(flags: bv32, sponsor: bool, selfpromo: bool, preview: bool, musicOfftopic: bool)

  /** The settings constructor: the flags are kept and each boolean reads its own bit. */
  function Decode(flags: bv32): Settings {
    Settings(flags, IsSet(flags, Sponsor), IsSet(flags, SelfPromo), IsSet(flags, Preview), IsSet(flags, MusicOffTopic))
  }

  /** The flags that have exactly the given categories switched on. */
  function Encode(sponsor: bool, selfpromo: bool, preview: bool, musicOfftopic: bool): bv32 {
    (if sponsor then Sponsor else 0) | (if selfpromo then SelfPromo else 0)
    | (if preview then Preview else 0) | (if musicOfftopic then MusicOffTopic else 0)
  }

  /** Decoding reads back every category that was encoded. */
  lemma DecodeEncode(sponsor: bool, selfpromo: bool, preview: bool, musicOfftopic: bool)
    ensures var flags := Encode(sponsor, selfpromo, preview, musicOfftopic);
            Decode(flags) == Settings(flags, sponsor, selfpromo, preview, musicOfftopic)
  {
  }

  /** Decoding loses nothing but the bits above the four categories. */
  lemma EncodeDecode(flags: bv32)
    ensures var s := Decode(flags);
            s.flags == flags && Encode(s.sponsor, s.selfpromo, s.preview, s.musicOfftopic) == flags & 15
  {
  }

  // ---------------------------------------------------------------------
  // The dropdown

  /** Option `k` carries the decimal text of flag `k` as its value. */
  function OptionValue(k: nat): string
    requires k < |Flags|
  {
    NatToString(Flags[k] as nat)
  }

  /** `get_selected_flag`: the selected option's value read as an integer. */
  function SelectedFlag(value: string): (r: Option<nat>)
    ensures r.Some? <==> |value| > 0 && AllDigits(value)
  {
    ParseNat(value)
  }

  /** Every option's value reads back as the flag it was made from. */
  lemma OptionValuesRoundTrip(k: nat)
    requires k < |Flags|
    ensures SelectedFlag(OptionValue(k)) == Some(Flags[k] as nat)
  {
    ParseNatToString(Flags[k] as nat);
  }

  /** The flag a selected option value stands for; `None` for a value no option carries. */
  function FlagOf(value: string): (r: Option<bv32>)
    ensures r.Some? ==> r.value in Flags
  {
    match SelectedFlag(value)
    case Some(n) => if n == 1 then Some(Sponsor) else if n == 2 then Some(SelfPromo)
                    else if n == 4 then Some(Preview) else if n == 8 then Some(MusicOffTopic) else None
    case None => None
  }

  /** Selecting option `k` selects flag `k`. */
  lemma FlagOfOption(k: nat)
    requires k < |Flags|
    ensures FlagOf(OptionValue(k)) == Some(Flags[k])
  {
    OptionValuesRoundTrip(k);
  }

  /** `get_field_index` as written: the selected flag shifted right by one. */
  function FieldIndexAsWritten(flag: bv32): nat {
    (flag >> 1) as nat
  }

  /** The shift finds the fields of the first three flags but sends the fourth flag past the last field. */
  lemma FieldIndexAsWrittenOverruns()
    ensures FieldIndexAsWritten(Sponsor) == 0 && FieldIndexAsWritten(SelfPromo) == 1 && FieldIndexAsWritten(Preview) == 2
    ensures FieldIndexAsWritten(MusicOffTopic) == 4 && FieldIndexAsWritten(MusicOffTopic) >= |Labels|
  {
  }

  /** The embed field that shows `flag`: its position among the flags, which is its bit number. */
  function FieldIndex(flag: bv32): (r: Option<nat>)
    ensures r.Some? <==> flag in Flags
    ensures r.Some? ==> r.value < |Flags| && Flags[r.value] == flag && flag == 1 << r.value
  {
    if flag == Sponsor then Some(0)
    else if flag == SelfPromo then Some(1)
    else if flag == Preview then Some(2)
    else if flag == MusicOffTopic then Some(3)
    else None
  }

  // ---------------------------------------------------------------------
  // Toggling

  /** The XOR toggle of the settings loop. */
  function Toggle(flags: bv32, flag: bv32): bv32 {
    flags ^ flag
  }

  /** Toggling a category flips exactly its bit: the bits that change are exactly the flag's bit, the flag's state inverts, and a second toggle restores the flags. */
  lemma ToggleFlipsOneBit(flags: bv32, flag: bv32)
    requires flag in Flags
    ensures Toggle(flags, flag) ^ flags == flag
    ensures IsSet(Toggle(flags, flag), flag) <==> !IsSet(flags, flag)
    ensures Toggle(Toggle(flags, flag), flag) == flags
  {
    var changed := Toggle(flags, flag) ^ flags;
    assert changed == flag;
    assert flag == Sponsor || flag == SelfPromo || flag == Preview || flag == MusicOffTopic;
  }

  /** Toggling one category leaves the state of every other category as it was. */
  lemma ToggleKeepsOtherFlags(flags: bv32, flag: bv32, other: bv32)
    requires flag in Flags && other in Flags && other != flag
    ensures IsSet(Toggle(flags, flag), other) <==> IsSet(flags, other)
  {
    assert flag == Sponsor || flag == SelfPromo || flag == Preview || flag == MusicOffTopic;
    assert other == Sponsor || other == SelfPromo || other == Preview || other == MusicOffTopic;
  }

  // ---------------------------------------------------------------------
  // The settings embed

  /** `toggle_flag` as written: "Enable" when the flag is set, "Disable" otherwise. */
  function ToggleFlagText(flags: bv32, flag: bv32): (t: string)
    ensures t == "Enable" <==> IsSet(flags, flag)
    ensures t == "Enable" || t == "Disable"
  {
    if IsSet(flags, flag) then "Enable" else "Disable"
  }

  /** The field text flip of the settings loop: "Disabled" only from exactly "Enabled", "Enabled" from anything else. */
  function FlipText(t: string): (r: string)
    ensures r == "Disabled" <==> t == "Enabled"
    ensures r == "Disabled" || r == "Enabled"
  {
    if t == "Enabled" then "Disabled" else "Enabled"
  }

  /** The four field values of the embed as `make` builds them. */
  function FieldsAsWritten(flags: bv32): seq<string> {
    [ToggleFlagText(flags, Sponsor), ToggleFlagText(flags, SelfPromo),
     ToggleFlagText(flags, Preview), ToggleFlagText(flags, MusicOffTopic)]
  }

  /** One selection of the settings loop as written: `None` is the IndexError of a field index past the last field, raised before the flag is toggled. */
  function StepAsWritten(flags: bv32, fields: seq<string>, flag: bv32): Option<(bv32, seq<string>)> {
    var i := FieldIndexAsWritten(flag);
    if i < |fields| then Some((Toggle(flags, flag), fields[i := FlipText(fields[i])])) else None
  }

  /** Selecting "Music Offtopic" always ends the loop with IndexError, whatever the flags. */
  lemma MusicOffTopicRaisesAsWritten(flags: bv32)
    ensures StepAsWritten(flags, FieldsAsWritten(flags), MusicOffTopic).None?
  {
  }

  /** With Sponsor on, the field reads "Enable"; toggling it clears the bit but the field then reads "Enabled". */
  lemma FieldTextDesyncAsWritten()
    ensures StepAsWritten(Sponsor, FieldsAsWritten(Sponsor), Sponsor) == Some((0, ["Enabled", "Disable", "Disable", "Disable"]))
    ensures !IsSet(0, Sponsor)
  {
    assert IsSet(Sponsor, Sponsor) && !IsSet(Sponsor, SelfPromo) && !IsSet(Sponsor, Preview) && !IsSet(Sponsor, MusicOffTopic);
    assert FieldsAsWritten(Sponsor) == ["Enable", "Disable", "Disable", "Disable"];
    assert Toggle(Sponsor, Sponsor) == 0;
    assert FieldIndexAsWritten(Sponsor) == 0;
    assert FlipText("Enable") == "Enabled";
    var fields := ["Enable", "Disable", "Disable", "Disable"];
    assert fields[0 := "Enabled"] == ["Enabled", "Disable", "Disable", "Disable"];
    assert StepAsWritten(Sponsor, fields, Sponsor) == Some((Toggle(Sponsor, Sponsor), fields[0 := FlipText(fields[0])]));
  }

  /** The text of a field whose category is `on`: "Enabled" or "Disabled", the words the flip expects. */
  function FieldText(on: bool): (t: string)
    ensures t == "Enabled" <==> on
    ensures t == "Enabled" || t == "Disabled"
  {
    if on then "Enabled" else "Disabled"
  }

  /** The flip turns the text of a state into the text of the opposite state. */
  lemma FlipTextFollowsState(on: bool)
    ensures FlipText(FieldText(on)) == FieldText(!on)
  {
  }

  /** As written, the first flip of any field gives "Enabled", whatever the flag's state. */
  lemma FirstFlipEnablesAsWritten(flags: bv32, flag: bv32)
    ensures FlipText(ToggleFlagText(flags, flag)) == "Enabled"
  {
  }

  /** The four field values showing the state of each flag. */
  function Fields(flags: bv32): (r: seq<string>)
    ensures |r| == |Flags|
    ensures forall k :: 0 <= k < |Flags| ==> r[k] == FieldText(IsSet(flags, Flags[k]))
  {
    [FieldText(IsSet(flags, Sponsor)), FieldText(IsSet(flags, SelfPromo)),
     FieldText(IsSet(flags, Preview)), FieldText(IsSet(flags, MusicOffTopic))]
  }

  /** One selection of the settings loop: toggle the flag and flip the text of its own field. */
  function Step(flags: bv32, fields: seq<string>, flag: bv32): (bv32, seq<string>)
    requires flag in Flags && |fields| == |Flags|
  {
    var i := FieldIndex(flag).value;
    (Toggle(flags, flag), fields[i := FlipText(fields[i])])
  }

  /** After a toggle, the field of the toggled flag shows the flipped text and every other field is unchanged. */
  lemma FieldAfterToggle(flags: bv32, flag: bv32, k: nat)
    requires flag in Flags && k < |Flags|
    ensures FieldText(IsSet(Toggle(flags, flag), Flags[k])) ==
            if Flags[k] == flag then FlipText(FieldText(IsSet(flags, Flags[k]))) else FieldText(IsSet(flags, Flags[k]))
  {
    if Flags[k] == flag {
      ToggleFlipsOneBit(flags, flag);
      FlipTextFollowsState(IsSet(flags, flag));
    } else {
      ToggleKeepsOtherFlags(flags, flag, Flags[k]);
    }
  }

  /** Fields that show the flags keep showing them after any selection. */
  lemma StepKeepsFieldsInSync(flags: bv32, flag: bv32)
    requires flag in Flags
    ensures Step(flags, Fields(flags), flag) == (Toggle(flags, flag), Fields(Toggle(flags, flag)))
  {
    var i := FieldIndex(flag).value;
    var before, after := Fields(flags), Fields(Toggle(flags, flag));
    forall k | 0 <= k < |Flags|
      ensures before[i := FlipText(before[i])][k] == after[k]
    {
      FieldAfterToggle(flags, flag, k);
      assert Flags[k] == flag <==> k == i;
    }
    assert before[i := FlipText(before[i])] == after;
  }

  /** The settings embed of `make` and the guild record's flags, updated together by each selection. */
  class SettingsMenu {
    var flags: bv32
    var fields: seq<string>

    /** The fields show the flags. */
    ghost predicate Valid()
      reads this
    {
      fields == Fields(flags)
    }

    /** The embed built from the guild's flags. */
    constructor (flags: bv32)
      ensures Valid() && this.flags == flags
    {
      this.flags := flags;
      fields := Fields(flags);
    }

    /** One round of the loop: read the selected flag, flip its field's text, XOR the flag into the record. Every option value selects a flag (`FlagOfOption`). */
    method Select(value: string)
      requires Valid()
      requires FlagOf(value).Some?
      modifies this
      ensures Valid()
      ensures flags == Toggle(old(flags), FlagOf(value).value)
    {
      var flag := FlagOf(value).value;
      var i := FieldIndex(flag).value;
      StepKeepsFieldsInSync(flags, flag);
      fields := fields[i := FlipText(fields[i])];
      flags := flags ^ flag;
    }
  }
}
