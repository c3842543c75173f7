/**
  The per-turn tool gate (`src/agents/tool-gate.ts`): a record that starts
  unblocked, is blocked at most once with a reason and a source, and is never
  unblocked in place; and the predicate that decides whether an operator's
  reply is an explicit confirmation to lift the gate.
*/
module ToolGate {
  import opened Wrappers
  import opened Text

  /** The value of a gate's three fields. */
  datatype GateState = GateState(blocked: bool, reason: Option<string>, source: Option<string>)

  /** The optional parameter bag of `createToolGate`. */
  datatype CreateParams = CreateParams(blocked: Option<bool>, reason: Option<string>, source: Option<string>)

  /** The optional parameter bag of `blockToolGate`. */
  datatype BlockParams = BlockParams(reason: Option<string>, source: Option<string>)

  /** The phrases an explicit confirmation starts with. */
  const ConfirmPrefixes: seq<string> := ["confirm", "yes, proceed", "yes proceed"]

  /** The gate `createToolGate(params)` returns. */
  function Created(params: Option<CreateParams>): (g: GateState)
    ensures params.None? ==> g == GateState(false, None, None)
    ensures params.Some? ==> g.reason == params.value.reason && g.source == params.value.source
    ensures g.blocked <==> params.Some? && params.value.blocked == Some(true)
  {
    match params
    case None => GateState(false, None, None)
    case Some(p) => GateState(p.blocked.GetOr(false), p.reason, p.source)
  }

  /** The gate's fields after `blockToolGate(gate, params)`. */
  function Blocked(g: GateState, params: Option<BlockParams>): GateState {
    if g.blocked then g
    else
      var reason := if params.Some? && Truthy(params.value.reason) then params.value.reason else g.reason;
      var source := if params.Some? && Truthy(params.value.source) then params.value.source else g.source;
      GateState(true, reason, source)
  }

  /** The gate a sequence of `blockToolGate` calls leaves. */
  function BlockedBy(g: GateState, calls: seq<Option<BlockParams>>): GateState
    decreases |calls|
  {
    if calls == [] then g else BlockedBy(Blocked(g, calls[0]), calls[1..])
  }

  /** A block always leaves the gate blocked; on a blocked gate it changes
      nothing; on an unblocked gate a field is overwritten only by a supplied
      non-empty value and otherwise keeps what the gate had. */
  lemma BlockSemantics(g: GateState, params: Option<BlockParams>)
    ensures Blocked(g, params).blocked
    ensures g.blocked ==> Blocked(g, params) == g
    ensures !g.blocked && params.Some? && Truthy(params.value.reason) ==> Blocked(g, params).reason == params.value.reason
    ensures !g.blocked && !(params.Some? && Truthy(params.value.reason)) ==> Blocked(g, params).reason == g.reason
    ensures !g.blocked && params.Some? && Truthy(params.value.source) ==> Blocked(g, params).source == params.value.source
    ensures !g.blocked && !(params.Some? && Truthy(params.value.source)) ==> Blocked(g, params).source == g.source
  {
  }

  /** Blocking twice is blocking once: the second call's reason and source are ignored. */
  lemma BlockIdempotent(g: GateState, first: Option<BlockParams>, second: Option<BlockParams>)
    ensures Blocked(Blocked(g, first), second) == Blocked(g, first)
  {
  }

  /** However many blocks follow, the first one decides the gate: no sequence
      of calls unblocks it or replaces the first block's reason and source. */
  lemma {:induction false} FirstBlockWins(g: GateState, calls: seq<Option<BlockParams>>)
    requires calls != []
    ensures BlockedBy(g, calls) == Blocked(g, calls[0])
    ensures BlockedBy(g, calls).blocked
  {
    var b := Blocked(g, calls[0]);
    BlockedStaysBlocked(b, calls[1..]);
  }

  lemma {:induction false} BlockedStaysBlocked(g: GateState, calls: seq<Option<BlockParams>>)
    requires g.blocked
    ensures BlockedBy(g, calls) == g
    decreases |calls|
  {
    if calls != [] {
      BlockedStaysBlocked(Blocked(g, calls[0]), calls[1..]);
    }
  }

  /** A gate object, mutated in place by `Block`. */
  class ToolGate {
    var blocked: bool
    var reason: Option<string>
    var source: Option<string>

    function State(): GateState
      reads this
    {
      GateState(blocked, reason, source)
    }

    /** `createToolGate(params)`. */
    constructor (params: Option<CreateParams>)
      ensures State() == Created(params)
    {
      match params
      case None =>
        blocked, reason, source := false, None, None;
      case Some(p) =>
        blocked := p.blocked.GetOr(false);
        reason, source := p.reason, p.source;
    }

    /** `blockToolGate(this, params)`. */
    method Block(params: Option<BlockParams>)
      modifies this
      ensures State() == Blocked(old(State()), params)
      ensures blocked
      ensures old(blocked) ==> unchanged(this)
    {
      if blocked {
        return;
      }
      blocked := true;
      if params.Some? && Truthy(params.value.reason) {
        reason := params.value.reason;
      }
      if params.Some? && Truthy(params.value.source) {
        source := params.value.source;
      }
    }
  }

  /** `text?.trim().toLowerCase() ?? ""`. */
  function Cleaned(text: Option<string>): string {
    ToLower(Trim(text.GetOr("")))
  }

  /** The phrase alone, or the phrase followed by a space. */
  predicate MatchesPhrase(cleaned: string, prefix: string) {
    cleaned == prefix || StartsWith(cleaned, prefix + " ")
  }

  /** `prefixes.some(prefix => MatchesPhrase(cleaned, prefix))`. */
  predicate SomePrefixMatches(cleaned: string, prefixes: seq<string>) {
    prefixes != [] && (MatchesPhrase(cleaned, prefixes[0]) || SomePrefixMatches(cleaned, prefixes[1..]))
  }

  /** `isExplicitUntrustedConfirmation(text)`. */
  predicate IsExplicitUntrustedConfirmation(text: Option<string>) {
    IsConfirmationPhrase(Cleaned(text))
  }

  /** The test on the cleaned text: not empty, and some phrase matches. */
  predicate IsConfirmationPhrase(cleaned: string) {
    if cleaned == "" then false else SomePrefixMatches(cleaned, ConfirmPrefixes)
  }

  lemma {:induction false} SomePrefixMatchesExists(cleaned: string, prefixes: seq<string>)
    ensures SomePrefixMatches(cleaned, prefixes) <==> exists i | 0 <= i < |prefixes| :: MatchesPhrase(cleaned, prefixes[i])
  {
    if prefixes != [] {
      SomePrefixMatchesExists(cleaned, prefixes[1..]);
      if exists i | 0 <= i < |prefixes| :: MatchesPhrase(cleaned, prefixes[i]) {
        var i :| 0 <= i < |prefixes| && MatchesPhrase(cleaned, prefixes[i]);
        if i > 0 { assert prefixes[1..][i - 1] == prefixes[i]; }
      }
      if SomePrefixMatches(cleaned, prefixes[1..]) {
        var i :| 0 <= i < |prefixes[1..]| && MatchesPhrase(cleaned, prefixes[1..][i]);
        assert prefixes[1..][i] == prefixes[i + 1];
      }
    }
  }

  lemma SomePrefixMatchesMember(cleaned: string, prefixes: seq<string>)
    ensures SomePrefixMatches(cleaned, prefixes) <==> exists p | p in prefixes :: MatchesPhrase(cleaned, p)
  {
    SomePrefixMatchesExists(cleaned, prefixes);
    if exists p | p in prefixes :: MatchesPhrase(cleaned, p) {
      var p :| p in prefixes && MatchesPhrase(cleaned, p);
      var i :| 0 <= i < |prefixes| && prefixes[i] == p;
    }
  }

  lemma PhraseCharacterised(cleaned: string)
    ensures IsConfirmationPhrase(cleaned) <==>
      (exists p | p in ConfirmPrefixes :: cleaned == p || StartsWith(cleaned, p + " "))
  {
    SomePrefixMatchesMember(cleaned, ConfirmPrefixes);
    if cleaned == "" {
      ThreePhrases(cleaned);
    }
  }

  /** The text is a confirmation exactly when, trimmed and lower-cased, it is one
      of the three phrases, or one of them followed by a space. */
  lemma ConfirmationCharacterised(text: Option<string>)
    ensures IsExplicitUntrustedConfirmation(text) <==>
      (exists p | p in ConfirmPrefixes :: Cleaned(text) == p || StartsWith(Cleaned(text), p + " "))
  {
    PhraseCharacterised(Cleaned(text));
  }

  /** Missing, empty and white-space-only replies are never confirmations. */
  lemma BlankIsNotConfirmation(text: Option<string>)
    requires Blank(text)
    ensures !IsExplicitUntrustedConfirmation(text)
  {
    assert Trim(text.GetOr("")) == [];
  }

  /** A phrase followed by anything other than a space is not a confirmation:
      "confirming" and "yes proceeding" do not pass. */
  lemma PhraseNeedsBoundary(text: Option<string>, i: nat, c: char, rest: string)
    requires i < |ConfirmPrefixes| && c != ' '
    requires Cleaned(text) == ConfirmPrefixes[i] + [c] + rest
    ensures !IsExplicitUntrustedConfirmation(text)
  {
    var cleaned := Cleaned(text);
    assert ConfirmPrefixes == ["confirm", "yes, proceed", "yes proceed"];
    if i == 0 {
      ConfirmThenOther(cleaned, c, rest);
    } else if i == 1 {
      YesCommaThenOther(cleaned, c, rest);
    } else {
      YesThenOther(cleaned, c, rest);
    }
  }

  lemma ConfirmThenOther(cleaned: string, c: char, rest: string)
    requires cleaned == "confirm" + [c] + rest && c != ' '
    ensures !SomePrefixMatches(cleaned, ConfirmPrefixes)
  {
    DiffersFromPhrase(cleaned, "confirm", 7);
    DiffersFromPhrase(cleaned, "yes, proceed", 0);
    DiffersFromPhrase(cleaned, "yes proceed", 0);
    ThreePhrases(cleaned);
  }

  lemma YesCommaThenOther(cleaned: string, c: char, rest: string)
    requires cleaned == "yes, proceed" + [c] + rest && c != ' '
    ensures !SomePrefixMatches(cleaned, ConfirmPrefixes)
  {
    DiffersFromPhrase(cleaned, "confirm", 0);
    DiffersFromPhrase(cleaned, "yes, proceed", 12);
    DiffersFromPhrase(cleaned, "yes proceed", 3);
    ThreePhrases(cleaned);
  }

  lemma YesThenOther(cleaned: string, c: char, rest: string)
    requires cleaned == "yes proceed" + [c] + rest && c != ' '
    ensures !SomePrefixMatches(cleaned, ConfirmPrefixes)
  {
    DiffersFromPhrase(cleaned, "confirm", 0);
    DiffersFromPhrase(cleaned, "yes, proceed", 3);
    DiffersFromPhrase(cleaned, "yes proceed", 11);
    ThreePhrases(cleaned);
  }

  /** A reply that differs from the phrase, or from the phrase and a space,
      at some position matches neither. */
  lemma DiffersFromPhrase(cleaned: string, q: string, k: nat)
    requires k <= |q| && k < |cleaned|
    requires cleaned[k] != (q + " ")[k]
    ensures !MatchesPhrase(cleaned, q)
  {
    var qs := q + " ";
    assert k < |q| ==> qs[k] == q[k];
    assert |qs| <= |cleaned| ==> cleaned[..|qs|][k] == cleaned[k];
  }

  /** The `some` over the three phrases, spelled out. */
  lemma ThreePhrases(cleaned: string)
    ensures SomePrefixMatches(cleaned, ConfirmPrefixes) <==>
      MatchesPhrase(cleaned, "confirm") || MatchesPhrase(cleaned, "yes, proceed") || MatchesPhrase(cleaned, "yes proceed")
  {
    var ps := ConfirmPrefixes;
    assert ps[0] == "confirm";
    assert ps[1..] == ["yes, proceed", "yes proceed"];
    assert ps[1..][1..] == ["yes proceed"];
    assert ps[1..][1..][1..] == [];
    assert !SomePrefixMatches(cleaned, ps[1..][1..][1..]);
    assert SomePrefixMatches(cleaned, ps[1..][1..]) == MatchesPhrase(cleaned, "yes proceed");
    assert SomePrefixMatches(cleaned, ps[1..]) == (MatchesPhrase(cleaned, "yes, proceed") || MatchesPhrase(cleaned, "yes proceed"));
  }

  /** A text matching a phrase starts with that phrase. */
  lemma MatchedPhraseStart(cleaned: string, prefix: string)
    requires MatchesPhrase(cleaned, prefix)
    ensures StartsWith(cleaned, prefix)
  {
    if cleaned != prefix {
      assert cleaned[..|prefix|] == cleaned[..|prefix| + 1][..|prefix|];
    }
  }

  lemma MatchedPhraseFacts(cleaned: string)
    requires SomePrefixMatches(cleaned, ConfirmPrefixes)
    ensures |cleaned| >= 7
    ensures StartsWith(cleaned, "confirm") || StartsWith(cleaned, "yes")
  {
    ThreePhrases(cleaned);
    MatchedOneOfThree(cleaned, "confirm", "yes, proceed", "yes proceed", "yes");
  }

  /** A text matching one of three phrases is at least as long as one of them
      and starts with the first, or with a common head of the other two. */
  lemma MatchedOneOfThree(cleaned: string, a: string, b: string, c: string, head: string)
    requires MatchesPhrase(cleaned, a) || MatchesPhrase(cleaned, b) || MatchesPhrase(cleaned, c)
    requires StartsWith(b, head) && StartsWith(c, head)
    ensures |cleaned| >= |a| || |cleaned| >= |b| || |cleaned| >= |c|
    ensures StartsWith(cleaned, a) || StartsWith(cleaned, head)
  {
    if MatchesPhrase(cleaned, a) {
      MatchedPhraseStart(cleaned, a);
    } else if MatchesPhrase(cleaned, b) {
      MatchedPhraseHead(cleaned, b, head);
    } else {
      MatchedPhraseHead(cleaned, c, head);
    }
  }

  /** A text matching a phrase starts with every prefix of that phrase. */
  lemma MatchedPhraseHead(cleaned: string, prefix: string, head: string)
    requires MatchesPhrase(cleaned, prefix) && StartsWith(prefix, head)
    ensures |cleaned| >= |prefix| && StartsWith(cleaned, head)
  {
    MatchedPhraseStart(cleaned, prefix);
    assert cleaned[..|head|] == cleaned[..|prefix|][..|head|];
  }

  /** Every confirmation is at least as long as the shortest phrase, and starts
      with "confirm" or "yes": a bare "yes" or "okay" never passes. */
  lemma ConfirmationIsDistinctive(text: Option<string>)
    requires IsExplicitUntrustedConfirmation(text)
    ensures |Cleaned(text)| >= 7
    ensures StartsWith(Cleaned(text), "confirm") || StartsWith(Cleaned(text), "yes")
  {
    MatchedPhraseFacts(Cleaned(text));
  }

  /** A reply that is already trimmed and has no upper-case ASCII letter is its
      own cleaned form. */
  lemma CleanedOfPlain(s: string)
    requires s == [] || (!IsSpace(s[0]) && !IsSpace(s[|s| - 1]))
    requires forall i | 0 <= i < |s| :: !('A' <= s[i] <= 'Z')
    ensures Cleaned(Some(s)) == s
  {
    TrimFixesTrimmed(s);
    ToLowerFixesLower(s);
  }

  /** White space around the reply does not change the verdict. */
  lemma ConfirmationIgnoresSurroundingSpace(w1: string, s: string, w2: string)
    requires AllSpace(w1) && AllSpace(w2)
    ensures IsExplicitUntrustedConfirmation(Some(w1 + s + w2)) == IsExplicitUntrustedConfirmation(Some(s))
  {
    TrimIgnoresSurroundingSpace(w1, s, w2);
  }

  /** Lower-casing the reply first does not change the verdict. */
  lemma ConfirmationIgnoresCase(s: string)
    ensures IsExplicitUntrustedConfirmation(Some(ToLower(s))) == IsExplicitUntrustedConfirmation(Some(s))
  {
    TrimToLower(s);
    ToLowerIdempotent(Trim(s));
  }

  /** A trimmed lower-case phrase followed by a space cleans to something that
      matches the phrase. */
  lemma CleanedPhraseThenSpace(p: string, rest: string)
    requires p != [] && !IsSpace(p[0]) && !IsSpace(p[|p| - 1]) && ToLower(p) == p
    ensures MatchesPhrase(Cleaned(Some(p + " " + rest)), p)
  {
    var q := p + " ";
    var s := q + rest;
    assert TrimStart(s) == s by { assert s[0] == p[0]; }
    ToLowerSnoc(p, ' ');
    if AllSpace(rest) {
      assert AllSpace(" " + rest) by { AllSpaceAppend(" ", rest); }
      assert s == p + (" " + rest);
      TrimEndBeforeSpace(p, " " + rest);
      assert Cleaned(Some(s)) == ToLower(p);
    } else {
      TrimEndPrepend(q, rest);
      ToLowerPrefix(q, TrimEnd(rest));
      assert Cleaned(Some(s)) == ToLower(q + TrimEnd(rest));
    }
  }

  /** Any phrase followed by a space is a confirmation, whatever comes after
      the space. */
  lemma PhraseThenSpaceAccepted(i: nat, rest: string)
    requires i < |ConfirmPrefixes|
    ensures IsExplicitUntrustedConfirmation(Some(ConfirmPrefixes[i] + " " + rest))
  {
    var p := ConfirmPrefixes[i];
    assert ToLower(p) == p;
    CleanedPhraseThenSpace(p, rest);
    var cleaned := Cleaned(Some(p + " " + rest));
    assert cleaned != "";
    SomePrefixMatchesExists(cleaned, ConfirmPrefixes);
  }

  /** Each phrase on its own is a confirmation. */
  lemma PhraseAloneAccepted(i: nat)
    requires i < |ConfirmPrefixes|
    ensures IsExplicitUntrustedConfirmation(Some(ConfirmPrefixes[i]))
  {
    var p := ConfirmPrefixes[i];
    assert ToLower(p) == p;
    TrimFixesTrimmed(p);
    SomePrefixMatchesExists(p, ConfirmPrefixes);
  }

  // The replies the project's tests accept. Each case takes the reply as a
  // parameter pinned by its `requires`, so that the solver reaches the literal
  // only through the general lemmas above instead of unfolding `Cleaned` on it.

  lemma ConfirmAccepted(reply: string)
    requires reply == "confirm"
    ensures IsExplicitUntrustedConfirmation(Some(reply))
  {
    PhraseAloneAccepted(0);
  }

  lemma ConfirmPleaseAccepted(reply: string)
    requires reply == "confirm please"
    ensures IsExplicitUntrustedConfirmation(Some(reply))
  {
    assert reply == ConfirmPrefixes[0] + " " + "please";
    PhraseThenSpaceAccepted(0, "please");
  }

  lemma YesCommaProceedAccepted(reply: string)
    requires reply == "yes, proceed"
    ensures IsExplicitUntrustedConfirmation(Some(reply))
  {
    PhraseAloneAccepted(1);
  }

  lemma YesProceedNowAccepted(reply: string)
    requires reply == "yes proceed now"
    ensures IsExplicitUntrustedConfirmation(Some(reply))
  {
    assert reply == ConfirmPrefixes[2] + " " + "now";
    PhraseThenSpaceAccepted(2, "now");
  }

  // The replies the project's tests reject.

  lemma YesRejected(reply: string)
    requires reply == "yes"
    ensures !IsExplicitUntrustedConfirmation(Some(reply))
  {
    CleanedOfPlain(reply);
    ThreePhrases(reply);
  }

  lemma OkayRejected(reply: string)
    requires reply == "okay"
    ensures !IsExplicitUntrustedConfirmation(Some(reply))
  {
    CleanedOfPlain(reply);
    ThreePhrases(reply);
  }

  lemma ConfirmingRejected(reply: string)
    requires reply == "confirming"
    ensures !IsExplicitUntrustedConfirmation(Some(reply))
  {
    CleanedOfPlain(reply);
    assert reply == "confirm" + ['i'] + "ng";
    PhraseNeedsBoundary(Some(reply), 0, 'i', "ng");
  }

  lemma EmptyRejected(reply: string)
    requires reply == ""
    ensures !IsExplicitUntrustedConfirmation(Some(reply))
  {
    BlankIsNotConfirmation(Some(reply));
  }
}
