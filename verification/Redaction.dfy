/** Redacting a credential from text that arrives in pieces.

    The projector redacts what it holds back plus the new piece, keeps the longest end
    that might be the start of the credential, and emits the rest, redacted once more.
    For a credential without brackets the pieces add up to the redaction of the whole
    text exactly if the second redaction finds nothing to do.
  */
module Redaction {

  import opened Finite

  const MARKER := "[REDACTED]"

  predicate StartsWith(text: string, s: string) {
    |s| <= |text| && text[..|s|] == s
  }

  predicate EndsWith(text: string, s: string) {
    |s| <= |text| && text[|text| - |s|..] == s
  }

  /** Replace every occurrence of `s`, from left to right. */
  function ReplaceAll(text: string, s: string): string
    requires s != ""
  {
    if |text| < |s| then text
    else if StartsWith(text, s) then MARKER + ReplaceAll(text[|s|..], s)
    else [text[0]] + ReplaceAll(text[1..], s)
  }

  /** One pass per secret; empty secrets are skipped. */
  function Redact(text: string, secrets: seq<string>): string
    decreases |secrets|
  {
    if secrets == [] then text
    else Redact(if secrets[0] == "" then text else ReplaceAll(text, secrets[0]), secrets[1..])
  }

  ghost predicate OccursAt(text: string, s: string, p: nat) {
    p + |s| <= |text| && text[p..p + |s|] == s
  }

  ghost predicate Occurs(text: string, s: string) {
    exists p: nat :: OccursAt(text, s, p)
  }

  ghost predicate NoBrackets(s: string) {
    '[' !in s && ']' !in s
  }

  // --------------------------------------------------------------- the held-back end

  /** `held` is the length of the longest proper start of one of the secrets that `text` ends with. */
  ghost predicate IsHeld(text: string, secrets: seq<string>, held: nat) {
    && held <= |text|
    && (held > 0 ==> exists k: nat :: k < |secrets| && held < |secrets[k]| && EndsWith(text, secrets[k][..held]))
    && forall k: nat, n: nat :: k < |secrets| && 0 < n < |secrets[k]| && EndsWith(text, secrets[k][..n]) ==> n <= held
  }

  method HeldLength(text: string, secrets: seq<string>) returns (held: nat)
    ensures IsHeld(text, secrets, held)
  {
    held := 0;
    for k := 0 to |secrets|
      invariant IsHeld(text, secrets[..k], held)
    {
      var secret := secrets[k];
      var length := 1;
      while length < |secret| && length <= |text|
        invariant 1 <= length
        invariant held <= |text|
        invariant held > 0 ==> exists j: nat :: j <= k && held < |secrets[j]| && EndsWith(text, secrets[j][..held])
        invariant forall j: nat, n: nat :: j < k && 0 < n < |secrets[j]| && EndsWith(text, secrets[j][..n]) ==> n <= held
        invariant forall n: nat :: 0 < n < length && n < |secret| && EndsWith(text, secret[..n]) ==> n <= held
      {
        if EndsWith(text, secret[..length]) {
          held := if held < length then length else held;
        }
        length := length + 1;
      }
      assert secrets[..k + 1][k] == secret;
    }
    assert secrets[..|secrets|] == secrets;
  }

  /** The projector's state for one assistant message. */
  class PublicEventProjector {
    const secrets: seq<string>
    var pendingText: string

    constructor (secrets: seq<string>)
      ensures this.secrets == secrets && pendingText == ""
    {
      this.secrets := secrets;
      this.pendingText := "";
    }

    /** Take in a piece of text and say what to publish, if anything. */
    method ProjectDelta(delta: string) returns (published: Option<string>)
      modifies this
      ensures Projects(secrets, old(pendingText), delta, match published case None => "" case Some(t) => t, pendingText)
    {
      hide Redact, IsHeld, Projects;
      var text := Redact(pendingText + delta, secrets);
      var held := HeldLength(text, secrets);
      pendingText := text[|text| - held..];
      var result := text[..|text| - held];
      RedactEmpty(secrets);
      ProjectsSo(secrets, old(pendingText), delta, text, held);
      if result == "" {
        return None;
      }
      return Some(Redact(result, secrets));
    }
  }

  lemma ProjectsSo(secrets: seq<string>, before: string, delta: string, text: string, held: nat)
    requires text == Redact(before + delta, secrets) && IsHeld(text, secrets, held) && held <= |text|
    ensures Projects(secrets, before, delta, Redact(text[..|text| - held], secrets), text[|text| - held..])
  {
    hide Redact, IsHeld;
    assert ProjectsHolding(secrets, before, delta, Redact(text[..|text| - held], secrets), text[|text| - held..], held);
  }

  lemma RedactEmpty(secrets: seq<string>)
    ensures Redact("", secrets) == ""
  {
  }

  /** One step of the projector: `before` was held back, `delta` came in, `published` went out, `after` is held back. */
  ghost predicate Projects(secrets: seq<string>, before: string, delta: string, published: string, after: string) {
    exists held: nat :: ProjectsHolding(secrets, before, delta, published, after, held)
  }

  ghost predicate ProjectsHolding(secrets: seq<string>, before: string, delta: string, published: string, after: string, held: nat) {
    var text := Redact(before + delta, secrets);
    IsHeld(text, secrets, held) && after == text[|text| - held..] && published == Redact(text[..|text| - held], secrets)
  }

  /** What is held back is determined. */
  lemma HeldIsUnique(text: string, secrets: seq<string>, m: nat, n: nat)
    requires IsHeld(text, secrets, m) && IsHeld(text, secrets, n)
    ensures m == n
  {
  }

  // --------------------------------------------------- one credential: the pieces add up

  /** `held` is the length of the longest proper start of `s` that `text` ends with. */
  ghost predicate Holds(text: string, s: string, held: nat) {
    && held <= |text| && held < |s| && EndsWith(text, s[..held])
    && forall n: nat :: n < |s| && EndsWith(text, s[..n]) ==> n <= held
  }

  lemma OneSecret(text: string, s: string, held: nat)
    requires s != "" && IsHeld(text, [s], held)
    ensures Holds(text, s, held) && Redact(text, [s]) == ReplaceAll(text, s)
  {
    assert Redact(ReplaceAll(text, s), [s][1..]) == ReplaceAll(text, s);
    forall n: nat | n < |s| && EndsWith(text, s[..n])
      ensures n <= held
    {
      assert EndsWith(text, [s][0][..n]);
    }
  }

  /** Without an occurrence before `p` the scan copies the first `p` characters. */
  lemma {:induction false} SkipTo(text: string, s: string, p: nat)
    requires s != "" && p <= |text| && forall q: nat :: q < p ==> !OccursAt(text, s, q)
    ensures ReplaceAll(text, s) == text[..p] + ReplaceAll(text[p..], s)
  {
    if p == 0 {
      assert text[0..] == text;
    } else if |text| < |s| {
      assert text[..p] + text[p..] == text;
    } else {
      assert !OccursAt(text, s, 0);
      forall q: nat | q < p - 1
        ensures !OccursAt(text[1..], s, q)
      {
        assert !OccursAt(text, s, q + 1);
        assert q + 1 + |s| <= |text| ==> text[1..][q..q + |s|] == text[q + 1..q + 1 + |s|];
      }
      SkipTo(text[1..], s, p - 1);
      assert text[1..][p - 1..] == text[p..] && [text[0]] + text[1..][..p - 1] == text[..p];
    }
  }

  lemma NothingToReplace(text: string, s: string)
    requires s != "" && !Occurs(text, s)
    ensures ReplaceAll(text, s) == text
  {
    SkipTo(text, s, |text|);
    assert text[|text|..] == "" && text[..|text|] == text;
  }

  /** Up to its first bracket the redacted text is the raw text. */
  lemma {:induction false} RawPrefix(text: string, s: string, k: nat)
    requires s != "" && k <= |ReplaceAll(text, s)| && '[' !in ReplaceAll(text, s)[..k]
    ensures k <= |text| && text[..k] == ReplaceAll(text, s)[..k]
  {
    assert k > 0 ==> ReplaceAll(text, s)[..k][0] == ReplaceAll(text, s)[0];
    if |text| < |s| || k == 0 {
    } else if StartsWith(text, s) {
    } else {
      var rest := ReplaceAll(text[1..], s);
      assert ReplaceAll(text, s)[..k] == [text[0]] + rest[..k - 1];
      RawPrefix(text[1..], s, k - 1);
      assert text[..k] == [text[0]] + text[1..][..k - 1];
    }
  }

  /** Redacted text without a bracket has the length of the raw text. */
  lemma {:induction false} LengthKept(z: string, s: string)
    requires s != "" && '[' !in ReplaceAll(z, s)
    ensures |ReplaceAll(z, s)| == |z|
  {
    if |z| < |s| {
    } else if StartsWith(z, s) {
    } else {
      LengthKept(z[1..], s);
    }
  }

  lemma EndBehind(front: string, text: string, n: nat)
    requires n <= |text|
    ensures (front + text)[|front + text| - n..] == text[|text| - n..]
    ensures (front + text)[..|front + text| - n] == front + text[..|text| - n]
  {
  }

  /** Text in front does not matter to what is held back unless some of it is. */
  lemma HoldsBehind(front: string, text: string, s: string, held: nat)
    requires Holds(front + text, s, held) && held <= |text|
    ensures Holds(text, s, held)
  {
    EndBehind(front, text, held);
    forall n: nat | n < |s| && EndsWith(text, s[..n])
      ensures n <= held
    {
      EndBehind(front, text, n);
      assert EndsWith(front + text, s[..n]);
    }
  }

  /** Whatever comes next, what is cut off before the held-back end is final. */
  ghost predicate Final(z: string, next: string, s: string, held: nat)
    requires s != "" && held <= |ReplaceAll(z, s)|
  {
    var t := ReplaceAll(z, s);
    ReplaceAll(z + next, s) == t[..|t| - held] + ReplaceAll(t[|t| - held..] + next, s)
  }

  lemma {:induction false} CutIsFinal(z: string, next: string, s: string, held: nat)
    requires s != "" && NoBrackets(s) && Holds(ReplaceAll(z, s), s, held)
    ensures Final(z, next, s, held)
    decreases |z|
  {
    if |z| < |s| {
      ShortCut(z, next, s, held);
    } else if StartsWith(z, s) {
      HeldBehindMarker(ReplaceAll(z[|s|..], s), s, held);
      HoldsBehind(MARKER, ReplaceAll(z[|s|..], s), s, held);
      CutIsFinal(z[|s|..], next, s, held);
      FinalBehindMarker(z, next, s, held);
    } else {
      HeldBehindRaw(z, s, held);
      HoldsBehind([z[0]], ReplaceAll(z[1..], s), s, held);
      CutIsFinal(z[1..], next, s, held);
      FinalBehindRaw(z, next, s, held);
    }
  }

  /** Finality carries over to text whose redaction only has something more in front. */
  lemma FinalBehind(z: string, z': string, front: string, next: string, s: string, held: nat)
    requires s != "" && held <= |ReplaceAll(z', s)| && Final(z', next, s, held)
    requires ReplaceAll(z, s) == front + ReplaceAll(z', s)
    requires ReplaceAll(z + next, s) == front + ReplaceAll(z' + next, s)
    ensures Final(z, next, s, held)
  {
    hide ReplaceAll;
    EndBehind(front, ReplaceAll(z', s), held);
  }

  lemma FinalBehindMarker(z: string, next: string, s: string, held: nat)
    requires s != "" && StartsWith(z, s) && held <= |ReplaceAll(z[|s|..], s)| && Final(z[|s|..], next, s, held)
    ensures Final(z, next, s, held)
  {
    hide Final;
    assert (z + next)[|s|..] == z[|s|..] + next && (z + next)[..|s|] == z[..|s|];
    assert ReplaceAll(z + next, s) == MARKER + ReplaceAll(z[|s|..] + next, s);
    FinalBehind(z, z[|s|..], MARKER, next, s, held);
  }

  lemma FinalBehindRaw(z: string, next: string, s: string, held: nat)
    requires s != "" && |z| >= |s| && !StartsWith(z, s) && held <= |ReplaceAll(z[1..], s)| && Final(z[1..], next, s, held)
    ensures Final(z, next, s, held)
  {
    hide Final;
    assert (z + next)[1..] == z[1..] + next && (z + next)[..|s|] == z[..|s|];
    assert ReplaceAll(z + next, s) == [z[0]] + ReplaceAll(z[1..] + next, s);
    FinalBehind(z, z[1..], [z[0]], next, s, held);
  }

  lemma ShortCut(z: string, next: string, s: string, held: nat)
    requires s != "" && |z| < |s| && Holds(z, s, held)
    ensures Final(z, next, s, held)
  {
    var all, p := z + next, |z| - held;
    forall q: nat | q < p
      ensures !OccursAt(all, s, q)
    {
      if OccursAt(all, s, q) {
        EndsWithStart(z, next, s, q);
      }
    }
    SkipTo(all, s, p);
    assert all[..p] == z[..p] && all[p..] == z[p..] + next;
  }

  lemma EndsWithStart(z: string, next: string, s: string, q: nat)
    requires q < |z| < |s| && OccursAt(z + next, s, q)
    ensures EndsWith(z, s[..|z| - q])
  {
    assert (z + next)[q..q + |s|][..|z| - q] == z[q..];
  }

  lemma EndCharacter(text: string, end: string, j: nat)
    requires EndsWith(text, end) && j < |end|
    ensures end[j] == text[|text| - |end| + j]
  {
  }

  lemma HeldBehindMarker(rest: string, s: string, held: nat)
    requires NoBrackets(s) && Holds(MARKER + rest, s, held)
    ensures held <= |rest|
  {
    if held > |rest| {
      EndCharacter(MARKER + rest, s[..held], held - |rest| - 1);
    }
  }

  lemma HeldBehindRaw(z: string, s: string, held: nat)
    requires s != "" && NoBrackets(s) && |z| >= |s| && !StartsWith(z, s) && Holds(ReplaceAll(z, s), s, held)
    ensures held <= |ReplaceAll(z[1..], s)|
  {
    var t := ReplaceAll(z, s);
    if held == |t| {
      assert t == s[..held];
      LengthKept(z, s);
    }
  }

  // -------------------------------------------------------------- redacting twice

  /** A nonempty text either holds `s` at its start or the scan moves on by one. */
  lemma OccursInTail(text: string, s: string, p: nat)
    requires 0 < p && OccursAt(text, s, p)
    ensures text != "" && OccursAt(text[1..], s, p - 1)
  {
    assert text[1..][p - 1..p - 1 + |s|] == text[p..p + |s|];
  }

  lemma OccursBehind(front: string, text: string, s: string, p: nat)
    requires OccursAt(front + text, s, p) && |front| <= p
    ensures OccursAt(text, s, p - |front|)
  {
    assert (front + text)[p..p + |s|] == text[p - |front|..p - |front| + |s|];
  }

  lemma OccurrenceCharacter(text: string, s: string, p: nat, j: nat)
    requires OccursAt(text, s, p) && j < |s|
    ensures s[j] == text[p + j]
  {
    assert s[j] == text[p..p + |s|][j];
  }

  /** An occurrence that starts in the marker lies inside it. */
  lemma InsideMarker(rest: string, s: string, p: nat)
    requires s != "" && NoBrackets(s) && OccursAt(MARKER + rest, s, p) && p < |MARKER|
    ensures OccursAt(MARKER, s, p)
  {
    var all := MARKER + rest;
    if p + |s| > |MARKER| {
      OccurrenceCharacter(all, s, p, |MARKER| - 1 - p);
    } else {
      assert all[p..p + |s|] == MARKER[p..p + |s|];
    }
  }

  /** Redacted text has no occurrence left, unless the marker brings one in. */
  lemma {:induction false} NoneLeft(z: string, s: string)
    requires s != "" && NoBrackets(s) && !Occurs(MARKER, s)
    ensures !Occurs(ReplaceAll(z, s), s)
    decreases |z|
  {
    var t := ReplaceAll(z, s);
    if |z| < |s| {
    } else if StartsWith(z, s) {
      var rest := ReplaceAll(z[|s|..], s);
      NoneLeft(z[|s|..], s);
      forall p: nat
        ensures !OccursAt(t, s, p)
      {
        if OccursAt(t, s, p) {
          if p < |MARKER| { InsideMarker(rest, s, p); } else { OccursBehind(MARKER, rest, s, p); }
        }
      }
    } else {
      var rest := ReplaceAll(z[1..], s);
      NoneLeft(z[1..], s);
      forall p: nat
        ensures !OccursAt(t, s, p)
      {
        if OccursAt(t, s, p) {
          if p == 0 { RawPrefix(z, s, |s|); } else { OccursBehind([z[0]], rest, s, p); }
        }
      }
    }
  }

  lemma NoneInPrefix(text: string, s: string, n: nat)
    requires n <= |text| && !Occurs(text, s)
    ensures !Occurs(text[..n], s)
  {
    forall p: nat
      ensures !OccursAt(text[..n], s, p)
    {
      assert !OccursAt(text, s, p);
      assert p + |s| <= n ==> text[..n][p..p + |s|] == text[p..p + |s|];
    }
  }

  lemma NoneInSuffix(text: string, s: string, n: nat)
    requires n <= |text| && !Occurs(text, s)
    ensures !Occurs(text[n..], s)
  {
    forall p: nat
      ensures !OccursAt(text[n..], s, p)
    {
      assert !OccursAt(text, s, n + p);
      assert n + p + |s| <= |text| ==> text[n..][p..p + |s|] == text[n + p..n + p + |s|];
    }
  }

  /** Replacing something shorter than the marker makes text longer. */
  lemma {:induction false} Grows(z: string, s: string)
    requires s != "" && |s| < |MARKER|
    ensures |ReplaceAll(z, s)| >= |z|
    ensures Occurs(z, s) ==> |ReplaceAll(z, s)| > |z|
    decreases |z|
  {
    if |z| < |s| {
    } else if StartsWith(z, s) {
      Grows(z[|s|..], s);
    } else {
      Grows(z[1..], s);
      if Occurs(z, s) {
        var p: nat :| OccursAt(z, s, p);
        OccursInTail(z, s, p);
      }
    }
  }

  /** A replacement shows: the marker stands somewhere in the redacted text. */
  lemma {:induction false} MarkerShows(z: string, s: string) returns (p: nat)
    requires s != "" && Occurs(z, s)
    ensures OccursAt(ReplaceAll(z, s), MARKER, p)
    decreases |z|
  {
    var q: nat :| OccursAt(z, s, q);
    if StartsWith(z, s) {
      p := 0;
    } else {
      assert q > 0;
      OccursInTail(z, s, q);
      var p' := MarkerShows(z[1..], s);
      p := p' + 1;
      assert ReplaceAll(z, s)[p..p + |MARKER|] == ReplaceAll(z[1..], s)[p'..p' + |MARKER|];
    }
  }

  lemma OccursWithin(text: string, middle: string, s: string, p: nat, q: nat)
    requires OccursAt(text, middle, p) && OccursAt(middle, s, q)
    ensures OccursAt(text, s, p + q)
  {
    forall j: nat | j < |s|
      ensures text[p + q + j] == s[j]
    {
      OccurrenceCharacter(middle, s, q, j);
      OccurrenceCharacter(text, middle, p, q + j);
    }
    assert text[p + q..p + q + |s|] == s;
  }

  // ------------------------------------------------------------------- a whole message

  function Concat(pieces: seq<string>): string {
    if pieces == [] then "" else Concat(pieces[..|pieces| - 1]) + pieces[|pieces| - 1]
  }

  /** The projector taking in `chunks` one by one: `held[i]` is held back before chunk `i`. */
  ghost predicate StreamRun(s: string, chunks: seq<string>, published: seq<string>, held: seq<string>) {
    && |published| == |chunks| && |held| == |chunks| + 1 && held[0] == ""
    && forall i: nat :: i < |chunks| ==> Projects([s], held[i], chunks[i], published[i], held[i + 1])
  }

  /** What is cut off in one step, before the second redaction. */
  ghost function CutOff(s: string, before: string, delta: string, after: string): string
    requires s != ""
  {
    var t := ReplaceAll(before + delta, s);
    if |after| <= |t| then t[..|t| - |after|] else ""
  }

  ghost function Cuts(s: string, chunks: seq<string>, held: seq<string>): seq<string>
    requires s != "" && |held| == |chunks| + 1
  {
    seq(|chunks|, i requires 0 <= i < |chunks| => CutOff(s, held[i], chunks[i], held[i + 1]))
  }

  lemma StepFacts(s: string, before: string, delta: string, published: string, after: string)
    requires s != "" && Projects([s], before, delta, published, after)
    ensures var t := ReplaceAll(before + delta, s);
            && Holds(t, s, |after|) && after == t[|t| - |after|..]
            && t == CutOff(s, before, delta, after) + after
            && published == ReplaceAll(CutOff(s, before, delta, after), s)
  {
    hide ReplaceAll, Redact, IsHeld, Holds;
    var held: nat :| ProjectsHolding([s], before, delta, published, after, held);
    var t := ReplaceAll(before + delta, s);
    OneSecretText(before + delta, s);
    OneSecret(t, s, held);
    OneSecretText(t[..|t| - held], s);
    HeldInside(t, [s], held);
    assert t[..|t| - held] + t[|t| - held..] == t;
  }

  lemma HeldInside(text: string, secrets: seq<string>, held: nat)
    requires IsHeld(text, secrets, held)
    ensures held <= |text|
  {
  }

  lemma OneSecretText(text: string, s: string)
    requires s != ""
    ensures Redact(text, [s]) == ReplaceAll(text, s)
  {
    assert Redact(ReplaceAll(text, s), [s][1..]) == ReplaceAll(text, s);
  }

  lemma PrefixRun(s: string, chunks: seq<string>, published: seq<string>, held: seq<string>)
    requires s != "" && StreamRun(s, chunks, published, held) && chunks != []
    ensures var n := |chunks| - 1;
            && StreamRun(s, chunks[..n], published[..n], held[..n + 1])
            && Cuts(s, chunks[..n], held[..n + 1]) == Cuts(s, chunks, held)[..n]
            && Projects([s], held[n], chunks[n], published[n], held[n + 1])
            && Concat(chunks) == Concat(chunks[..n]) + chunks[n]
            && Cuts(s, chunks, held)[n] == CutOff(s, held[n], chunks[n], held[n + 1])
            && Concat(Cuts(s, chunks, held)) == Concat(Cuts(s, chunks, held)[..n]) + Cuts(s, chunks, held)[n]
            && Concat(published) == Concat(published[..n]) + published[n]
  {
    hide Projects, CutOff;
  }

  /** The pieces cut off so far are the redaction of the text so far, whatever follows. */
  lemma {:induction false} CutsAddUp(s: string, chunks: seq<string>, published: seq<string>, held: seq<string>, next: string)
    requires s != "" && NoBrackets(s) && StreamRun(s, chunks, published, held)
    ensures ReplaceAll(Concat(chunks) + next, s) == Concat(Cuts(s, chunks, held)) + ReplaceAll(held[|chunks|] + next, s)
    decreases |chunks|
  {
    hide StreamRun, Projects, CutOff, ReplaceAll, NoBrackets, Cuts;
    StreamLengths(s, chunks, published, held);
    if chunks == [] {
      assert Concat(chunks) + next == next && held[0] + next == next;
      assert Concat(Cuts(s, chunks, held)) == "" by { NoCuts(s, held); }
    } else {
      var n := |chunks| - 1;
      PrefixRun(s, chunks, published, held);
      CutsAddUp(s, chunks[..n], published[..n], held[..n + 1], chunks[n] + next);
      StepFacts(s, held[n], chunks[n], published[n], held[n + 1]);
      var cut := CutOff(s, held[n], chunks[n], held[n + 1]);
      NextIsFinal(held[n] + chunks[n], next, s, cut, held[n + 1]);
      assert held[..n + 1][n] == held[n];
      Regroup(Concat(chunks), Concat(chunks[..n]), chunks[n], next, held[n]);
      LastPiece(Concat(Cuts(s, chunks, held)), Concat(Cuts(s, chunks[..n], held[..n + 1])), cut, ReplaceAll(held[n + 1] + next, s));
    }
  }

  lemma Regroup(whole: string, front: string, chunk: string, next: string, before: string)
    requires whole == front + chunk
    ensures whole + next == front + (chunk + next) && before + (chunk + next) == before + chunk + next
  {
  }

  lemma LastPiece(all: string, front: string, cut: string, rest: string)
    requires all == front + cut
    ensures all + rest == front + (cut + rest)
  {
  }

  lemma NoCuts(s: string, held: seq<string>)
    requires s != "" && |held| == 1
    ensures Concat(Cuts(s, [], held)) == ""
  {
  }

  lemma NextIsFinal(z: string, next: string, s: string, cut: string, after: string)
    requires s != "" && NoBrackets(s) && Holds(ReplaceAll(z, s), s, |after|)
    requires ReplaceAll(z, s) == cut + after
    ensures ReplaceAll(z + next, s) == cut + ReplaceAll(after + next, s)
  {
    hide ReplaceAll;
    CutIsFinal(z, next, s, |after|);
    assert (cut + after)[..|cut + after| - |after|] == cut && (cut + after)[|cut + after| - |after|..] == after;
  }

  lemma StreamLengths(s: string, chunks: seq<string>, published: seq<string>, held: seq<string>)
    requires StreamRun(s, chunks, published, held)
    ensures |published| == |chunks| && |held| == |chunks| + 1 && held[0] == ""
  {
  }

  /** Before the second redaction, pieces and held-back end add up to the redacted whole. */
  lemma CutsAndHeldAddUp(s: string, chunks: seq<string>, published: seq<string>, held: seq<string>)
    requires s != "" && NoBrackets(s) && StreamRun(s, chunks, published, held)
    ensures ReplaceAll(Concat(chunks), s) == Concat(Cuts(s, chunks, held)) + held[|chunks|]
  {
    CutsAddUp(s, chunks, published, held, "");
    var last := held[|chunks|];
    assert Concat(chunks) + "" == Concat(chunks) && last + "" == last;
    if chunks != [] {
      var n := |chunks| - 1;
      PrefixRun(s, chunks, published, held);
      StepFacts(s, held[n], chunks[n], published[n], held[n + 1]);
    }
    assert |last| < |s|;
  }

  /** The text that one step redacts has no occurrence if the whole message so far has none. */
  lemma StepHasNone(s: string, chunks: seq<string>, published: seq<string>, held: seq<string>)
    requires s != "" && NoBrackets(s) && StreamRun(s, chunks, published, held) && chunks != []
    requires !Occurs(Concat(chunks), s)
    ensures !Occurs(Concat(chunks[..|chunks| - 1]), s) && !Occurs(held[|chunks| - 1] + chunks[|chunks| - 1], s)
  {
    hide *;
    var n := |chunks| - 1;
    PrefixRun(s, chunks, published, held);
    StreamLengths(s, chunks, published, held);
    var before, cuts := Concat(chunks[..n]), Concat(Cuts(s, chunks[..n], held[..n + 1]));
    Parts(Concat(chunks), before, chunks[n]);
    NoneInPrefix(Concat(chunks), s, |before|);
    NothingToReplace(before, s);
    CutsAndHeldAddUp(s, chunks[..n], published[..n], held[..n + 1]);
    assert held[..n + 1][n] == held[n];
    assert Concat(chunks) == cuts + (held[n] + chunks[n]);
    Parts(Concat(chunks), cuts, held[n] + chunks[n]);
    NoneInSuffix(Concat(chunks), s, |cuts|);
  }

  lemma Parts(whole: string, front: string, end: string)
    requires whole == front + end
    ensures |front| <= |whole| && whole[..|front|] == front && whole[|front|..] == end
  {
  }

  /** Published is what was cut off, if the second redaction has nothing to find. */
  lemma {:induction false} SecondPassIdle(s: string, chunks: seq<string>, published: seq<string>, held: seq<string>)
    requires s != "" && NoBrackets(s) && StreamRun(s, chunks, published, held)
    requires !Occurs(MARKER, s) || !Occurs(Concat(chunks), s)
    ensures Concat(published) == Concat(Cuts(s, chunks, held))
    decreases |chunks|
  {
    hide StreamRun, Projects, CutOff, ReplaceAll, NoBrackets, Cuts, Occurs;
    StreamLengths(s, chunks, published, held);
    if chunks == [] {
      NoCuts(s, held);
    } else {
      var n := |chunks| - 1;
      PrefixRun(s, chunks, published, held);
      StepFacts(s, held[n], chunks[n], published[n], held[n + 1]);
      var z, cut := held[n] + chunks[n], CutOff(s, held[n], chunks[n], held[n + 1]);
      if !Occurs(MARKER, s) {
        NoneLeft(z, s);
      } else {
        StepHasNone(s, chunks, published, held);
        NothingToReplace(z, s);
      }
      SecondPassIdle(s, chunks[..n], published[..n], held[..n + 1]);
      NoneInPrefix(ReplaceAll(z, s), s, |cut|);
      assert ReplaceAll(z, s)[..|cut|] == cut;
      NothingToReplace(cut, s);
    }
  }

  /** A credential that is part of the marker is shorter than it. */
  lemma ShorterThanMarker(s: string)
    requires s != "" && NoBrackets(s) && Occurs(MARKER, s)
    ensures |s| < |MARKER|
  {
    var p: nat :| OccursAt(MARKER, s, p);
    if |s| == |MARKER| {
      OccurrenceCharacter(MARKER, s, p, 0);
    }
  }

  /** The end held back has no bracket, so no marker reaches into it. */
  lemma MarkerInCut(t: string, s: string, cut: string, after: string, p: nat)
    requires s != "" && NoBrackets(s) && t == cut + after && Holds(t, s, |after|) && OccursAt(t, MARKER, p)
    ensures p + |MARKER| <= |cut|
  {
    if p + |MARKER| > |cut| {
      HeldHasNoBracket(t, s, |after|, p + |MARKER| - 1);
      OccurrenceCharacter(t, MARKER, p, |MARKER| - 1);
    }
  }

  lemma HeldHasNoBracket(t: string, s: string, held: nat, k: nat)
    requires NoBrackets(s) && Holds(t, s, held) && |t| - held <= k < |t|
    ensures t[k] != ']'
  {
    EndCharacter(t, s[..held], k - (|t| - held));
  }

  /** If a step replaced something, its piece holds a whole marker. */
  lemma ReplacedShows(z: string, s: string, cut: string, after: string)
    requires s != "" && NoBrackets(s) && Occurs(MARKER, s) && Occurs(z, s)
    requires ReplaceAll(z, s) == cut + after && Holds(ReplaceAll(z, s), s, |after|)
    ensures Occurs(cut, s)
  {
    var t := ReplaceAll(z, s);
    var p := MarkerShows(z, s);
    var q: nat :| OccursAt(MARKER, s, q);
    MarkerInCut(t, s, cut, after, p);
    assert t[p..p + |MARKER|] == cut[p..p + |MARKER|];
    OccursWithin(cut, MARKER, s, p, q);
  }

  /** The second redaction only adds; if it adds nothing, nothing had been replaced at all. */
  lemma {:induction false} SecondPassAdds(s: string, chunks: seq<string>, published: seq<string>, held: seq<string>)
    requires s != "" && NoBrackets(s) && StreamRun(s, chunks, published, held) && Occurs(MARKER, s)
    ensures |Concat(published)| >= |Concat(Cuts(s, chunks, held))|
    ensures |Concat(published)| == |Concat(Cuts(s, chunks, held))| ==>
              Concat(Cuts(s, chunks, held)) + held[|chunks|] == Concat(chunks)
    decreases |chunks|
  {
    hide StreamRun, Projects, CutOff, ReplaceAll, NoBrackets, Cuts, Occurs, Holds;
    StreamLengths(s, chunks, published, held);
    if chunks == [] {
      NoCuts(s, held);
    } else {
      var n := |chunks| - 1;
      PrefixRun(s, chunks, published, held);
      StepFacts(s, held[n], chunks[n], published[n], held[n + 1]);
      SecondPassAdds(s, chunks[..n], published[..n], held[..n + 1]);
      ShorterThanMarker(s);
      var z, cut := held[n] + chunks[n], CutOff(s, held[n], chunks[n], held[n + 1]);
      Grows(cut, s);
      if |published[n]| == |cut| {
        if Occurs(z, s) {
          ReplacedShows(z, s, cut, held[n + 1]);
        } else {
          NothingToReplace(z, s);
          SameWhole(Concat(Cuts(s, chunks[..n], held[..n + 1])), cut, held[n + 1], held[n], chunks[n], Concat(chunks[..n]));
        }
      }
    }
  }

  lemma SameWhole(cuts: string, cut: string, after: string, before: string, chunk: string, soFar: string)
    requires cut + after == before + chunk
    ensures cuts + before == soFar ==> cuts + cut + after == soFar + chunk
  {
    assert cuts + cut + after == cuts + (cut + after);
    assert cuts + before + chunk == cuts + (before + chunk);
  }

  /** For a credential without brackets: however the text is cut into pieces, what is published and
      what is still held back add up to the redaction of the whole text, exactly if the credential is
      no part of the marker or does not occur in the text. */
  lemma StreamingAgrees(s: string, chunks: seq<string>, published: seq<string>, held: seq<string>)
    requires s != "" && NoBrackets(s) && StreamRun(s, chunks, published, held)
    ensures Concat(published) + held[|chunks|] == ReplaceAll(Concat(chunks), s)
            <==> (!Occurs(MARKER, s) || !Occurs(Concat(chunks), s))
  {
    hide StreamRun, Projects, CutOff, ReplaceAll, NoBrackets, Cuts, Occurs;
    StreamLengths(s, chunks, published, held);
    CutsAndHeldAddUp(s, chunks, published, held);
    if !Occurs(MARKER, s) || !Occurs(Concat(chunks), s) {
      SecondPassIdle(s, chunks, published, held);
    } else {
      SecondPassAdds(s, chunks, published, held);
      ShorterThanMarker(s);
      Grows(Concat(chunks), s);
    }
  }

  lemma LetterOfMarker()
    ensures ReplaceAll("E", "E") == MARKER && |ReplaceAll(MARKER, "E")| > |MARKER|
  {
    assert OccursAt(MARKER, "E", 2);
    Grows(MARKER, "E");
    assert "E"[1..] == "";
  }

  /** A run that disagrees: the credential is a letter of the marker, and the text is that letter. */
  method OneLetter() returns (published: Option<string>)
    ensures ReplaceAll("E", "E") == MARKER
    ensures published == Some(ReplaceAll(MARKER, "E")) && published != Some(ReplaceAll("E", "E"))
  {
    hide ReplaceAll, Projects;
    var projector := new PublicEventProjector(["E"]);
    published := projector.ProjectDelta("E");
    StepFacts("E", "", "E", match published case None => "" case Some(t) => t, projector.pendingText);
    LetterOfMarker();
    assert "" + "E" == "E" && projector.pendingText == "" && MARKER[..|MARKER|] == MARKER;
  }
}
