// Welcome and goodbye messages: the per-guild switches that gate them and
// the placeholder substitution that renders them.

module Greetings {
  import opened Wrappers

  type ChannelId = nat

  /** `pat` occurs in `s` starting at position `i`. */
  predicate OccursAt(s: string, pat: string, i: int) {
    0 <= i && i + |pat| <= |s| && s[i..i + |pat|] == pat
  }

  /** `pat` occurs in `s` somewhere. */
  ghost predicate Contains(s: string, pat: string) {
    exists i :: OccursAt(s, pat, i)
  }

  /** Python's `s.replace(pat, rep)`: every occurrence of `pat`, scanning left to right without overlaps, becomes `rep`. */
  function ReplaceAll(s: string, pat: string, rep: string): string
    requires |pat| > 0
    decreases |s|
  {
    if |s| < |pat| then s
    else if s[..|pat|] == pat then rep + ReplaceAll(s[|pat|..], pat, rep)
    else [s[0]] + ReplaceAll(s[1..], pat, rep)
  }

  /** A text in which the pattern does not occur comes back unchanged. */
  lemma {:induction false} ReplaceAllWithoutOccurrence(s: string, pat: string, rep: string)
    requires |pat| > 0 && !Contains(s, pat)
    ensures ReplaceAll(s, pat, rep) == s
    decreases |s|
  {
    if |s| >= |pat| {
      assert !OccursAt(s, pat, 0);
      assert s[0..0 + |pat|] == s[..|pat|];
      forall i
        ensures !OccursAt(s[1..], pat, i)
      {
        if OccursAt(s[1..], pat, i) {
          assert s[1..][i..i + |pat|] == s[i + 1..i + 1 + |pat|];
          assert OccursAt(s, pat, i + 1);
        }
      }
      ReplaceAllWithoutOccurrence(s[1..], pat, rep);
      assert s == [s[0]] + s[1..];
    }
  }

  /** Replacing a pattern by itself changes nothing. */
  lemma {:induction false} ReplaceAllByItself(s: string, pat: string)
    requires |pat| > 0
    ensures ReplaceAll(s, pat, pat) == s
    decreases |s|
  {
    if |s| >= |pat| {
      if s[..|pat|] == pat {
        ReplaceAllByItself(s[|pat|..], pat);
        assert s == s[..|pat|] + s[|pat|..];
      } else {
        ReplaceAllByItself(s[1..], pat);
        assert s == [s[0]] + s[1..];
      }
    }
  }

  /** A text that is exactly the pattern becomes exactly the replacement. */
  lemma ReplaceAllWhole(pat: string, rep: string)
    requires |pat| > 0
    ensures ReplaceAll(pat, pat, rep) == rep
  {
    assert pat[..|pat|] == pat;
    assert pat[|pat|..] == [];
  }

  /** An occurrence fixes the characters it covers. */
  lemma OccursAtChar(s: string, pat: string, i: int, j: int)
    requires 0 <= j < |pat|
    ensures OccursAt(s, pat, i) ==> s[i + j] == pat[j]
  {
    if OccursAt(s, pat, i) {
      assert s[i..i + |pat|][j] == s[i + j];
    }
  }

  /** An occurrence in a suffix is an occurrence in the whole text, further right. */
  lemma OccursInSuffix(s: string, pat: string, k: nat, i: int)
    requires k <= |s| && OccursAt(s[k..], pat, i)
    ensures OccursAt(s, pat, i + k)
  {
    assert s[k..][i..i + |pat|] == s[i + k..i + k + |pat|];
  }

  /** Dropping a prefix of `a` keeps the boundary with `b` free of occurrences. */
  lemma NoStraddleInSuffix(a: string, b: string, pat: string, k: nat)
    requires 0 < k <= |a|
    requires forall i :: |a| - |pat| < i < |a| ==> !OccursAt(a + b, pat, i)
    ensures (a + b)[k..] == a[k..] + b
    ensures forall i :: |a[k..]| - |pat| < i < |a[k..]| ==> !OccursAt(a[k..] + b, pat, i)
  {
    assert (a + b)[k..] == a[k..] + b;
    forall i | |a[k..]| - |pat| < i < |a[k..]|
      ensures !OccursAt(a[k..] + b, pat, i)
    {
      if OccursAt(a[k..] + b, pat, i) {
        OccursInSuffix(a + b, pat, k, i);
      }
    }
  }

  /**
   * Replacing in a concatenation replaces in each part on its own when no
   * occurrence straddles the boundary: the left-to-right scan then meets the
   * boundary exactly.
   */
  lemma {:induction false} ReplaceAllConcat(a: string, b: string, pat: string, rep: string)
    requires |pat| > 0
    requires forall i :: |a| - |pat| < i < |a| ==> !OccursAt(a + b, pat, i)
    ensures ReplaceAll(a + b, pat, rep) == ReplaceAll(a, pat, rep) + ReplaceAll(b, pat, rep)
    decreases |a|
  {
    if a == [] {
      assert a + b == b;
    } else if |a + b| < |pat| {
      assert a + b == a + b;
    } else if (a + b)[..|pat|] == pat {
      assert OccursAt(a + b, pat, 0) by {
        assert (a + b)[0..0 + |pat|] == (a + b)[..|pat|];
      }
      assert a[..|pat|] == pat;
      var rest := a[|pat|..];
      NoStraddleInSuffix(a, b, pat, |pat|);
      ReplaceAllConcat(rest, b, pat, rep);
    } else {
      var rest := a[1..];
      NoStraddleInSuffix(a, b, pat, 1);
      ReplaceAllConcat(rest, b, pat, rep);
      if |a| >= |pat| {
        assert a[..|pat|] == (a + b)[..|pat|];
      } else {
        assert a == [a[0]] + rest;
      }
    }
  }

  /** The first character of `pat` does not recur inside it, as with "{guild}". */
  predicate UniqueHead(pat: string) {
    |pat| > 0 && forall j :: 0 < j < |pat| ==> pat[j] != pat[0]
  }

  /** Every occurrence is replaced: an occurrence between two texts becomes the replacement, and each side is replaced on its own. */
  lemma ReplaceAllReplacesOccurrence(a: string, b: string, pat: string, rep: string)
    requires UniqueHead(pat)
    ensures ReplaceAll(a + pat + b, pat, rep) == ReplaceAll(a, pat, rep) + rep + ReplaceAll(b, pat, rep)
  {
    var s := a + (pat + b);
    assert a + pat + b == s;
    forall i | |a| - |pat| < i < |a|
      ensures !OccursAt(s, pat, i)
    {
      OccursAtChar(s, pat, i, |a| - i);
      assert s[|a|] == pat[0];
    }
    ReplaceAllConcat(a, pat + b, pat, rep);
    assert (pat + b)[..|pat|] == pat;
    assert (pat + b)[|pat|..] == b;
  }

  /** A placeholder-shaped token: "{" and at least one more character, none of them "{". */
  predicate Token(w: string) {
    |w| > 1 && w[0] == '{' && forall j :: 0 < j < |w| ==> w[j] != '{'
  }

  /** A token that differs from the pattern in its second character stays in place, and the texts around it are replaced on their own. */
  lemma ReplaceAllKeepsToken(a: string, w: string, b: string, pat: string, rep: string)
    requires Token(pat) && Token(w) && w[1] != pat[1]
    ensures ReplaceAll(a + w + b, pat, rep) == ReplaceAll(a, pat, rep) + w + ReplaceAll(b, pat, rep)
  {
    var s := a + (w + b);
    assert a + w + b == s;
    forall i | |a| - |pat| < i < |a|
      ensures !OccursAt(s, pat, i)
    {
      OccursAtChar(s, pat, i, |a| - i);
      assert s[|a|] == w[0];
    }
    ReplaceAllConcat(a, w + b, pat, rep);
    forall i | |w| - |pat| < i < |w|
      ensures !OccursAt(w + b, pat, i)
    {
      if i == 0 {
        OccursAtChar(w + b, pat, 0, 1);
        assert (w + b)[1] == w[1];
      } else if i > 0 {
        OccursAtChar(w + b, pat, i, 0);
        assert (w + b)[i] == w[i];
      }
    }
    ReplaceAllConcat(w, b, pat, rep);
    forall i
      ensures !OccursAt(w, pat, i)
    {
      if i == 0 {
        OccursAtChar(w, pat, 0, 1);
      } else {
        OccursAtChar(w, pat, i, 0);
      }
    }
    ReplaceAllWithoutOccurrence(w, pat, rep);
  }

  /** The member fields the templates can mention. */
  datatype Member = Member(guildName: string, displayName: string, discriminator: string, mention: string)

  /** A welcome template rendered: "{guild}", "{name}", "{tag}", then "{@user}", one replacement after another. */
  function RenderWelcome(template: string, m: Member): string {
    ReplaceAll(ReplaceAll(ReplaceAll(ReplaceAll(template, "{guild}", m.guildName), "{name}", m.displayName),
                          "{tag}", m.discriminator), "{@user}", m.mention)
  }

  /** A goodbye template rendered: "{guild}", "{name}", then "{tag}"; there is no "{@user}" step. */
  function RenderGoodbye(template: string, m: Member): string {
    ReplaceAll(ReplaceAll(ReplaceAll(template, "{guild}", m.guildName), "{name}", m.displayName), "{tag}", m.discriminator)
  }

  /** A text shorter than a pattern does not contain it. */
  lemma ShortTextContainsNothing(s: string, pat: string)
    requires |s| < |pat|
    ensures !Contains(s, pat)
  {
  }

  /** A template without placeholders is sent as it is. */
  lemma PlainTemplateUnchanged(template: string, m: Member)
    requires !Contains(template, "{guild}") && !Contains(template, "{name}")
    requires !Contains(template, "{tag}") && !Contains(template, "{@user}")
    ensures RenderWelcome(template, m) == template
    ensures RenderGoodbye(template, m) == template
  {
    ReplaceAllWithoutOccurrence(template, "{guild}", m.guildName);
    ReplaceAllWithoutOccurrence(template, "{name}", m.displayName);
    ReplaceAllWithoutOccurrence(template, "{tag}", m.discriminator);
    ReplaceAllWithoutOccurrence(template, "{@user}", m.mention);
  }

  /** The four placeholders are tokens, told apart by their second character. */
  lemma PlaceholdersAreTokens()
    ensures Token("{guild}") && Token("{name}") && Token("{tag}") && Token("{@user}")
    ensures "{guild}"[1] == 'g' && "{name}"[1] == 'n' && "{tag}"[1] == 't' && "{@user}"[1] == '@'
  {
  }

  /** A goodbye leaves every "{@user}" of the template literal, and the texts around it render on their own. */
  lemma GoodbyeKeepsMentionPlaceholder(a: string, b: string, m: Member)
    ensures RenderGoodbye(a + "{@user}" + b, m) == RenderGoodbye(a, m) + "{@user}" + RenderGoodbye(b, m)
  {
    PlaceholdersAreTokens();
    var w := "{@user}";
    ReplaceAllKeepsToken(a, w, b, "{guild}", m.guildName);
    var a1, b1 := ReplaceAll(a, "{guild}", m.guildName), ReplaceAll(b, "{guild}", m.guildName);
    ReplaceAllKeepsToken(a1, w, b1, "{name}", m.displayName);
    var a2, b2 := ReplaceAll(a1, "{name}", m.displayName), ReplaceAll(b1, "{name}", m.displayName);
    ReplaceAllKeepsToken(a2, w, b2, "{tag}", m.discriminator);
  }

  /** A welcome turns every "{@user}" of the template into the member's mention, and the texts around it render on their own. */
  lemma WelcomeReplacesMention(a: string, b: string, m: Member)
    ensures RenderWelcome(a + "{@user}" + b, m) == RenderWelcome(a, m) + m.mention + RenderWelcome(b, m)
  {
    PlaceholdersAreTokens();
    var w := "{@user}";
    ReplaceAllKeepsToken(a, w, b, "{guild}", m.guildName);
    var a1, b1 := ReplaceAll(a, "{guild}", m.guildName), ReplaceAll(b, "{guild}", m.guildName);
    ReplaceAllKeepsToken(a1, w, b1, "{name}", m.displayName);
    var a2, b2 := ReplaceAll(a1, "{name}", m.displayName), ReplaceAll(b1, "{name}", m.displayName);
    ReplaceAllKeepsToken(a2, w, b2, "{tag}", m.discriminator);
    var a3, b3 := ReplaceAll(a2, "{tag}", m.discriminator), ReplaceAll(b2, "{tag}", m.discriminator);
    ReplaceAllReplacesOccurrence(a3, b3, w, m.mention);
  }

  /** A goodbye turns every "{tag}" of the template into the member's discriminator, and the texts around it render on their own. */
  lemma GoodbyeReplacesTag(a: string, b: string, m: Member)
    ensures RenderGoodbye(a + "{tag}" + b, m) == RenderGoodbye(a, m) + m.discriminator + RenderGoodbye(b, m)
  {
    PlaceholdersAreTokens();
    var w := "{tag}";
    ReplaceAllKeepsToken(a, w, b, "{guild}", m.guildName);
    var a1, b1 := ReplaceAll(a, "{guild}", m.guildName), ReplaceAll(b, "{guild}", m.guildName);
    ReplaceAllKeepsToken(a1, w, b1, "{name}", m.displayName);
    var a2, b2 := ReplaceAll(a1, "{name}", m.displayName), ReplaceAll(b1, "{name}", m.displayName);
    ReplaceAllReplacesOccurrence(a2, b2, w, m.discriminator);
  }

  /** The replacements run in sequence: a guild named "{name}" is itself rewritten to the member's display name. */
  lemma GuildNameIsRewritten(displayName: string, discriminator: string, mention: string)
    requires |displayName| < 5
    ensures RenderWelcome("{guild}", Member("{name}", displayName, discriminator, mention)) == displayName
  {
    ReplaceAllWhole("{guild}", "{name}");
    ReplaceAllWhole("{name}", displayName);
    ShortTextContainsNothing(displayName, "{tag}");
    ReplaceAllWithoutOccurrence(displayName, "{tag}", discriminator);
    ShortTextContainsNothing(displayName, "{@user}");
    ReplaceAllWithoutOccurrence(displayName, "{@user}", mention);
  }

  // ---------------------------------------------------------------------
  // Templates read as parts

  /** No "{" anywhere in `s`, so no placeholder can start inside it. */
  predicate NoBrace(s: string) {
    forall i :: 0 <= i < |s| ==> s[i] != '{'
  }

  /** The placeholders the renderings know. */
  const Placeholders: set<string> := {"{guild}", "{name}", "{tag}", "{@user}"}

  /** Each placeholder is a token, and two placeholders with the same second character are the same. */
  lemma PlaceholderFacts(x: string, pat: string)
    requires x in Placeholders && pat in Placeholders
    ensures Token(x) && (x[1] == pat[1] ==> x == pat)
  {
    PlaceholdersAreTokens();
  }

  /** Text without "{" is no placeholder. */
  lemma NoBraceIsNoPlaceholder(s: string)
    requires NoBrace(s)
    ensures s !in Placeholders
  {
    if |s| > 0 {
      assert s[0] != '{';
    }
  }

  /** A piece a replacement step cannot cut into: text without "{", or a known placeholder. */
  predicate Shaped(x: string) {
    NoBrace(x) || x in Placeholders
  }

  /** One replacement step over a shaped piece followed by more text: the piece becomes the replacement exactly when it is the pattern, and the rest is replaced on its own. */
  lemma StepOverShaped(x: string, y: string, pat: string, rep: string)
    requires Shaped(x) && pat in Placeholders
    ensures ReplaceAll(x + y, pat, rep) == (if x == pat then rep else x) + ReplaceAll(y, pat, rep)
  {
    PlaceholderFacts(pat, pat);
    if x in Placeholders {
      PlaceholderFacts(x, pat);
      if x == pat {
        ReplaceAllReplacesOccurrence([], y, pat, rep);
        assert [] + pat + y == x + y;
      } else {
        ReplaceAllKeepsToken([], x, y, pat, rep);
        assert [] + x + y == x + y;
      }
    } else {
      forall i | |x| - |pat| < i < |x|
        ensures !OccursAt(x + y, pat, i)
      {
        OccursAtChar(x + y, pat, i, 0);
        if 0 <= i {
          assert (x + y)[i] == x[i];
        }
      }
      ReplaceAllConcat(x, y, pat, rep);
      forall i
        ensures !OccursAt(x, pat, i)
      {
        OccursAtChar(x, pat, i, 0);
      }
      ReplaceAllWithoutOccurrence(x, pat, rep);
    }
  }

  /** A template part: literal text or a placeholder. */
  datatype Part = Text(text: string) | Placeholder(token: string)

  /** The template text of one part. */
  function Written(p: Part): string {
    match p
    case Text(s) => s
    case Placeholder(t) => t
  }

  /** The template that a sequence of parts spells. */
  function Spell(parts: seq<Part>): string {
    if parts == [] then [] else Written(parts[0]) + Spell(parts[1..])
  }

  /** Literal text without "{", and placeholders the renderings know. */
  predicate PlainParts(parts: seq<Part>) {
    forall k :: 0 <= k < |parts| ==>
      match parts[k]
      case Text(s) => NoBrace(s)
      case Placeholder(t) => t in Placeholders
  }

  /** What one part of a welcome shows. */
  function WelcomeValue(p: Part, m: Member): string {
    match p
    case Text(s) => s
    case Placeholder(t) =>
      if t == "{guild}" then m.guildName else if t == "{name}" then m.displayName
      else if t == "{tag}" then m.discriminator else if t == "{@user}" then m.mention else t
  }

  /** What one part of a goodbye shows: "{@user}" is no goodbye placeholder and shows as written. */
  function GoodbyeValue(p: Part, m: Member): string {
    match p
    case Text(s) => s
    case Placeholder(t) =>
      if t == "{guild}" then m.guildName else if t == "{name}" then m.displayName
      else if t == "{tag}" then m.discriminator else t
  }

  /** Every part of a welcome replaced by what it shows, all at once. */
  function WelcomeText(parts: seq<Part>, m: Member): string {
    if parts == [] then [] else WelcomeValue(parts[0], m) + WelcomeText(parts[1..], m)
  }

  /** Every part of a goodbye replaced by what it shows, all at once. */
  function GoodbyeText(parts: seq<Part>, m: Member): string {
    if parts == [] then [] else GoodbyeValue(parts[0], m) + GoodbyeText(parts[1..], m)
  }

  /** The rest of a plain sequence of parts is plain. */
  lemma PlainPartsTail(parts: seq<Part>)
    requires PlainParts(parts) && parts != []
    ensures PlainParts(parts[1..])
  {
    assert forall k :: 0 <= k < |parts| - 1 ==> parts[1..][k] == parts[k + 1];
  }

  /**
   * When the literal text of a welcome template and the member's guild
   * name, display name and discriminator hold no "{", the chain of
   * replacements shows every placeholder as its value and every literal
   * text as it is, as if all four were replaced at once.
   */
  lemma {:induction false} RenderWelcomeParts(parts: seq<Part>, m: Member)
    requires PlainParts(parts)
    requires NoBrace(m.guildName) && NoBrace(m.displayName) && NoBrace(m.discriminator)
    ensures RenderWelcome(Spell(parts), m) == WelcomeText(parts, m)
  {
    if parts != [] {
      var x, y := Written(parts[0]), Spell(parts[1..]);
      PlainPartsTail(parts);
      RenderWelcomeParts(parts[1..], m);
      NoBraceIsNoPlaceholder(m.guildName);
      NoBraceIsNoPlaceholder(m.displayName);
      NoBraceIsNoPlaceholder(m.discriminator);
      if parts[0].Text? {
        NoBraceIsNoPlaceholder(x);
      }
      StepOverShaped(x, y, "{guild}", m.guildName);
      var x1, y1 := if x == "{guild}" then m.guildName else x, ReplaceAll(y, "{guild}", m.guildName);
      StepOverShaped(x1, y1, "{name}", m.displayName);
      var x2, y2 := if x1 == "{name}" then m.displayName else x1, ReplaceAll(y1, "{name}", m.displayName);
      StepOverShaped(x2, y2, "{tag}", m.discriminator);
      var x3, y3 := if x2 == "{tag}" then m.discriminator else x2, ReplaceAll(y2, "{tag}", m.discriminator);
      StepOverShaped(x3, y3, "{@user}", m.mention);
      assert (if x3 == "{@user}" then m.mention else x3) == WelcomeValue(parts[0], m);
    }
  }

  /**
   * The same for a goodbye template, whose "{@user}" stays as written; the
   * discriminator may hold anything, as it is replaced last.
   */
  lemma {:induction false} RenderGoodbyeParts(parts: seq<Part>, m: Member)
    requires PlainParts(parts)
    requires NoBrace(m.guildName) && NoBrace(m.displayName)
    ensures RenderGoodbye(Spell(parts), m) == GoodbyeText(parts, m)
  {
    if parts != [] {
      var x, y := Written(parts[0]), Spell(parts[1..]);
      PlainPartsTail(parts);
      RenderGoodbyeParts(parts[1..], m);
      NoBraceIsNoPlaceholder(m.guildName);
      NoBraceIsNoPlaceholder(m.displayName);
      if parts[0].Text? {
        NoBraceIsNoPlaceholder(x);
      }
      StepOverShaped(x, y, "{guild}", m.guildName);
      var x1, y1 := if x == "{guild}" then m.guildName else x, ReplaceAll(y, "{guild}", m.guildName);
      StepOverShaped(x1, y1, "{name}", m.displayName);
      var x2, y2 := if x1 == "{name}" then m.displayName else x1, ReplaceAll(y1, "{name}", m.displayName);
      StepOverShaped(x2, y2, "{tag}", m.discriminator);
      assert (if x2 == "{tag}" then m.discriminator else x2) == GoodbyeValue(parts[0], m);
    }
  }

  /** The greeting settings of a guild record. */
  datatype GuildRecord = GuildRecord(
    isWelcomeEnabled: bool, welcomeMessage: string, welcomeChannel: ChannelId,
    isGoodbyeEnabled: bool, goodbyeMessage: string, goodbyeChannel: ChannelId)

  /** A message to post in a channel. */
  datatype Outgoing = Outgoing(channel: ChannelId, content: string)

  /** `on_member_join`: post the rendered welcome when it is switched on, not empty, and its channel resolves. */
  function OnMemberJoin(g: GuildRecord, m: Member, channels: set<ChannelId>): (r: Option<Outgoing>)
    ensures r.Some? <==> g.isWelcomeEnabled && g.welcomeMessage != "" && g.welcomeChannel in channels
    ensures r.Some? ==> r.value.channel == g.welcomeChannel && r.value.content == RenderWelcome(g.welcomeMessage, m)
  {
    if g.isWelcomeEnabled && g.welcomeMessage != "" && g.welcomeChannel in channels
    then Some(Outgoing(g.welcomeChannel, RenderWelcome(g.welcomeMessage, m)))
    else None
  }

  /** `on_member_remove`: the same three gates on the goodbye settings, with the goodbye rendering. */
  function OnMemberRemove(g: GuildRecord, m: Member, channels: set<ChannelId>): (r: Option<Outgoing>)
    ensures r.Some? <==> g.isGoodbyeEnabled && g.goodbyeMessage != "" && g.goodbyeChannel in channels
    ensures r.Some? ==> r.value.channel == g.goodbyeChannel && r.value.content == RenderGoodbye(g.goodbyeMessage, m)
  {
    if g.isGoodbyeEnabled && g.goodbyeMessage != "" && g.goodbyeChannel in channels
    then Some(Outgoing(g.goodbyeChannel, RenderGoodbye(g.goodbyeMessage, m)))
    else None
  }
}
