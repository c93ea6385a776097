/** The call-id normalizers of the other adapters, and that replaying with them is stable. */
module CallIdRules {
  import opened Wrappers
  import opened Conversation
  import opened Replay
  import opened ReplayStability
  import M = MistralIds

  const ANTHROPIC_LENGTH := 64
  const COMPLETIONS_LENGTH := 40

  predicate IsIdChar(c: char) {
    'a' <= c <= 'z' || 'A' <= c <= 'Z' || '0' <= c <= '9' || c == '_' || c == '-'
  }

  function Sanitized(s: string): (r: string)
    ensures |r| == |s| && forall k | 0 <= k < |s| :: r[k] == if IsIdChar(s[k]) then s[k] else '_'
  {
    seq(|s|, k requires 0 <= k < |s| => if IsIdChar(s[k]) then s[k] else '_')
  }

  function Cut(s: string, limit: nat): string { if |s| > limit then s[..limit] else s }

  /** Also Bedrock's rule. */
  function AnthropicId(id: string): string { Cut(Sanitized(id), ANTHROPIC_LENGTH) }

  /** The part before a bar, or the id cut short for OpenAI itself. */
  function CompletionsId(id: string, provider: string): string {
    var bar := Bar(id, 0);
    if bar < |id| then Cut(Sanitized(id[..bar]), COMPLETIONS_LENGTH)
    else if provider == "openai" then Cut(id, COMPLETIONS_LENGTH)
    else id
  }

  /** The first bar from i on, or the end. */
  function Bar(s: string, i: nat): (r: nat)
    requires i <= |s|
    ensures i <= r <= |s| && (forall k | i <= k < r :: s[k] != '|') && (r < |s| ==> s[r] == '|')
    decreases |s| - i
  {
    if i < |s| && s[i] != '|' then Bar(s, i + 1) else i
  }

  /** For Anthropic's ids, and so for Bedrock's, replaying twice is replaying once. */
  lemma AnthropicReplayIsStable(ms: seq<Message>, target: Target, now: int, later: int)
    requires target.normalize == Some((id: string, o: Origin) => AnthropicId(id))
    ensures Replayed(Replayed(ms, target, now), target, later) == Replayed(ms, target, now)
  {
    hide Replayed;
    forall id: string, o: Origin ensures NewId(NewId(id, o, target), o, target) == NewId(id, o, target) {
      assert AnthropicId(AnthropicId(id)) == AnthropicId(id);
    }
    IdempotentNormalizerIsStable(ms, target, now, later);
  }

  lemma CompletionsIdIsFinal(id: string, provider: string)
    ensures CompletionsId(CompletionsId(id, provider), provider) == CompletionsId(id, provider)
  {
    var once := CompletionsId(id, provider);
    if Bar(once, 0) < |once| {
      assert false;
    }
  }

  lemma CompletionsReplayIsStable(ms: seq<Message>, target: Target, now: int, later: int)
    requires target.normalize == Some((id: string, o: Origin) => CompletionsId(id, target.provider))
    ensures Replayed(Replayed(ms, target, now), target, later) == Replayed(ms, target, now)
  {
    hide Replayed;
    forall id: string, o: Origin ensures NewId(NewId(id, o, target), o, target) == NewId(id, o, target) {
      CompletionsIdIsFinal(id, target.provider);
    }
    IdempotentNormalizerIsStable(ms, target, now, later);
  }

  // ----- The Responses adapters -------------------------------------------------------------

  const ITEM_PREFIX := "fc_"

  /** strings.TrimRight of underscores. */
  function TrimmedRight(s: string): (r: string)
    ensures r <= s && (r == "" || r[|r| - 1] != '_') && forall k | |r| <= k < |s| :: s[k] == '_'
  {
    if s != "" && s[|s| - 1] == '_' then TrimmedRight(s[..|s| - 1]) else s
  }

  function IdPart(part: string): string { TrimmedRight(Cut(Sanitized(part), ANTHROPIC_LENGTH)) }

  /** What stands for the item id of a call from another provider or API. */
  function ForeignItemId(item: string): string { Cut(ITEM_PREFIX + M.ShortHash(item), ANTHROPIC_LENGTH) }

  function ItemId(item: string, foreign: bool): string {
    var id := if foreign then ForeignItemId(item) else IdPart(item);
    if ITEM_PREFIX <= id then id else IdPart(ITEM_PREFIX + id)
  }

  /** The call comes from another provider or API than the target's, not just from another model. */
  predicate IsForeign(o: Origin, target: Target) { o.provider != target.provider || o.api != target.api }

  /** The rule for a target whose ids have a bar between call and item if its provider is one of allowed. */
  function ResponsesId(id: string, foreign: bool, allowed: bool): string {
    var bar := Bar(id, 0);
    if !allowed || bar == |id| then IdPart(id)
    else IdPart(id[..bar]) + "|" + ItemId(id[bar + 1..], foreign)
  }

  /** Of a call's own provider and API: the prefix is there, or is put before something that it does not vanish with. */
  predicate PrefixStays(item: string) {
    ITEM_PREFIX <= IdPart(item) || OutlivesCut(IdPart(item))
  }

  /** The item part of an id comes out of the rule as it will come out again. */
  predicate ItemSettles(item: string, foreign: bool) {
    if foreign then ForeignItemId(ForeignItemId(item)) == ForeignItemId(item) else PrefixStays(item)
  }

  predicate IdSettles(id: string, foreign: bool, allowed: bool) {
    allowed && Bar(id, 0) < |id| ==> ItemSettles(id[Bar(id, 0) + 1..], foreign)
  }

  lemma IdPartIsFinal(part: string)
    ensures IdPart(IdPart(part)) == IdPart(part) && forall c | c in IdPart(part) :: IsIdChar(c)
  {
    var once := IdPart(part);
    var cut := Cut(Sanitized(part), ANTHROPIC_LENGTH);
    assert forall c | c in cut :: IsIdChar(c);
    assert once <= cut;
    assert forall k | 0 <= k < |once| :: once[k] == cut[k];
    assert Sanitized(once) == once;
  }

  lemma BarFound(a: string, b: string)
    requires forall c | c in a :: IsIdChar(c)
    ensures var id := a + "|" + b; Bar(id, 0) == |a| && id[..|a|] == a && id[|a| + 1..] == b
  {
    var id := a + "|" + b;
    assert id[..|a|] == a && id[|a|] == '|';
    forall k | 0 <= k < |a| ensures id[k] != '|' {
      assert a[k] in a;
    }
  }

  lemma NoBar(s: string)
    requires forall c | c in s :: IsIdChar(c)
    ensures Bar(s, 0) == |s|
  {
    forall k | 0 <= k < |s| ensures s[k] != '|' {
      assert s[k] in s;
    }
  }

  /** Something other than underscores stands early enough behind the prefix. */
  predicate OutlivesCut(id: string) {
    exists k :: 0 <= k < |id| && k < ANTHROPIC_LENGTH - |ITEM_PREFIX| && id[k] != '_'
  }

  lemma PrefixedIsClean(id: string)
    requires forall c | c in id :: IsIdChar(c)
    ensures Sanitized(ITEM_PREFIX + id) == ITEM_PREFIX + id
  {
    var long := ITEM_PREFIX + id;
    forall k | 0 <= k < |long| ensures IsIdChar(long[k]) {
      if k >= 3 {
        assert long[k] == id[k - 3] && id[k - 3] in id;
      }
    }
  }

  lemma PrefixKept(id: string)
    requires (forall c | c in id :: IsIdChar(c)) && OutlivesCut(id)
    ensures ITEM_PREFIX <= IdPart(ITEM_PREFIX + id)
  {
    hide Sanitized;
    PrefixedIsClean(id);
    var long := ITEM_PREFIX + id;
    var cut, r := Cut(long, ANTHROPIC_LENGTH), IdPart(long);
    var k :| 0 <= k < |id| && k < ANTHROPIC_LENGTH - |ITEM_PREFIX| && id[k] != '_';
    assert cut[k + 3] == id[k];
    assert |r| > k + 3;
    assert r <= cut <= long;
    assert long[..3] == ITEM_PREFIX;
  }

  /** Otherwise the prefix loses its underscore with all that follows it. */
  lemma PrefixLost(id: string)
    requires (forall c | c in id :: IsIdChar(c)) && !OutlivesCut(id)
    ensures IdPart(ITEM_PREFIX + id) == "fc"
  {
    hide Sanitized;
    PrefixedIsClean(id);
    var long := ITEM_PREFIX + id;
    var cut, r := Cut(long, ANTHROPIC_LENGTH), IdPart(long);
    forall k | 2 <= k < |cut| ensures cut[k] == '_' {
      if k >= 3 {
        assert cut[k] == id[k - 3];
      }
    }
    assert cut[1] == 'c' && cut[0] == 'f';
    assert |r| == 2 && r == cut[..2];
  }

  lemma SameItemSettles(item: string)
    ensures ItemId(ItemId(item, false), false) == ItemId(item, false) <==> PrefixStays(item)
  {
    hide IdPart, Sanitized, OutlivesCut;
    var id := IdPart(item);
    IdPartIsFinal(item);
    if !(ITEM_PREFIX <= id) {
      IdPartIsFinal(ITEM_PREFIX + id);
      if OutlivesCut(id) {
        PrefixKept(id);
      } else {
        PrefixLost(id);
        FcOutlivesCut();
        PrefixKept("fc");
      }
    }
  }

  lemma FcOutlivesCut()
    ensures OutlivesCut("fc") && !(ITEM_PREFIX <= "fc") && forall c | c in "fc" :: IsIdChar(c)
  {
    assert "fc"[0] != '_';
  }

  lemma ForeignIsPrefixed(item: string)
    ensures ITEM_PREFIX <= ForeignItemId(item)
  {
    hide M.ShortHash;
  }

  lemma IdSettlesExactly(id: string, foreign: bool, allowed: bool)
    ensures ResponsesId(ResponsesId(id, foreign, allowed), foreign, allowed) == ResponsesId(id, foreign, allowed)
            <==> IdSettles(id, foreign, allowed)
  {
    hide IdPart, ForeignItemId, PrefixStays;
    var bar := Bar(id, 0);
    if !allowed || bar == |id| {
      IdPartIsFinal(id);
      NoBar(IdPart(id));
    } else {
      var call, item := IdPart(id[..bar]), id[bar + 1..];
      IdPartIsFinal(id[..bar]);
      BarFound(call, ItemId(item, foreign));
      SameTailExactly(call + "|", ItemId(ItemId(item, foreign), foreign), ItemId(item, foreign));
      if foreign {
        ForeignIsPrefixed(item);
        ForeignIsPrefixed(ForeignItemId(item));
      } else {
        SameItemSettles(item);
      }
    }
  }

  lemma SameTailExactly(a: string, b: string, c: string)
    ensures a + b == a + c <==> b == c
  {
    assert (a + b)[|a|..] == b && (a + c)[|a|..] == c;
  }

  function ResponsesRule(target: Target, allowed: set<string>): (string, Origin) -> string {
    (id: string, o: Origin) => ResponsesId(id, IsForeign(o, target), target.provider in allowed)
  }

  predicate CallSettles(p: Part, o: Origin, target: Target, allowed: set<string>) {
    p.Call? ==> IdSettles(p.call.id, IsForeign(o, target), target.provider in allowed)
  }

  /** Every call of another model's turn that did not fail has an id that the rule settles. */
  predicate TurnIdsSettle(m: Message, target: Target, allowed: set<string>) {
    m.Assistant? && m.parts.Some? && !IsSameModel(m, target) && !IsFailedTurn(m) ==>
      forall p | p in m.parts.value :: CallSettles(p, OriginOf(m), target, allowed)
  }

  /**
   * For a Responses target replaying twice is replaying once exactly when no id
   * with a bar has an item part that the rule changes again: another provider's
   * whose hash is not its own hash, or the own provider's that is all underscores.
   */
  lemma ResponsesReplayStableExactly(ms: seq<Message>, target: Target, allowed: set<string>, now: int, later: int)
    requires forall id: string, o: Origin :: NewId(id, o, target) == ResponsesRule(target, allowed)(id, o)
    ensures Replayed(Replayed(ms, target, now), target, later) == Replayed(ms, target, now)
            <==> forall m | m in ms :: TurnIdsSettle(m, target, allowed)
  {
    hide Replayed, NewId, ResponsesId, IdSettles, IsFailedTurn;
    StableExactlyWhenIdsSettle(ms, target, now, later);
    forall m | m in ms ensures TurnSettles(m, target) <==> TurnIdsSettle(m, target, allowed) {
      if m.Assistant? && m.parts.Some? {
        forall p | p in m.parts.value
          ensures SettlesAtOnce(p, OriginOf(m), target) <==> CallSettles(p, OriginOf(m), target, allowed)
        {
          if p.Call? {
            IdSettlesExactly(p.call.id, IsForeign(OriginOf(m), target), target.provider in allowed);
          }
        }
      }
    }
  }

  /** A turn of another model of the same provider and API: its id c| becomes c|fc, and then c|fc_fc. */
  lemma EmptyItemDoesNotSettle(target: Target, allowed: set<string>, model: string, now: int, later: int)
    requires forall id: string, o: Origin :: NewId(id, o, target) == ResponsesRule(target, allowed)(id, o)
    requires target.provider in allowed && model != target.id
    ensures var ms := [Assistant(Some([Call(ToolCall("c|", "tool", "{}", ""))]), target.api, target.provider, model, ToolUse, "")];
            Replayed(Replayed(ms, target, now), target, later) != Replayed(ms, target, now)
  {
    hide Replayed, ResponsesId, NewId, IdSettles;
    var call := Call(ToolCall("c|", "tool", "{}", ""));
    var ms := [Assistant(Some([call]), target.api, target.provider, model, ToolUse, "")];
    ResponsesReplayStableExactly(ms, target, allowed, now, later);
    NoItemDoesNotSettle();
    assert call in ms[0].parts.value && !CallSettles(call, OriginOf(ms[0]), target, allowed);
    assert ms[0] in ms && !TurnIdsSettle(ms[0], target, allowed);
  }

  lemma NoItemDoesNotSettle()
    ensures !IdSettles("c|", false, true)
  {
    assert Bar("c|", 0) == 1;
    assert "c|"[2..] == "";
    assert Sanitized("") == "" && IdPart("") == "";
  }

  // ----- What the rules promise --------------------------------------------------------------

  /** An allowed character stands for itself, any other for an underscore. */
  predicate StandsIn(r: string, s: string) {
    |r| <= |s| && forall k | 0 <= k < |r| ::
      r[k] == if ('a' <= s[k] <= 'z') || ('A' <= s[k] <= 'Z') || ('0' <= s[k] <= '9') || s[k] == '_' || s[k] == '-' then s[k] else '_'
  }

  function Min(a: nat, b: nat): nat { if a < b then a else b }

  /** Anthropic's ids: the first 64 characters, one by one. */
  lemma AnthropicIdExactly(id: string)
    ensures StandsIn(AnthropicId(id), id) && |AnthropicId(id)| == Min(|id|, 64)
  {
  }

  /** The completions ids: of an id with a bar the first 40 characters before it; without one the id, for OpenAI the first 40 of it. */
  lemma CompletionsIdExactly(call: string, item: string, provider: string)
    requires '|' !in call
    ensures StandsIn(CompletionsId(call + ("|" + item), provider), call)
    ensures |CompletionsId(call + ("|" + item), provider)| == Min(|call|, 40)
    ensures CompletionsId(call, provider) == if provider == "openai" then call[..Min(|call|, 40)] else call
  {
    BarBehind(call, item);
    CallHasNoBar(call);
    assert call[..|call|] == call;
  }

  lemma BarBehind(call: string, item: string)
    requires '|' !in call
    ensures var id := call + ("|" + item); Bar(id, 0) == |call| && id[..|call|] == call && id[|call| + 1..] == item
  {
    var id := call + ("|" + item);
    assert id[|call|] == '|';
    assert forall k | 0 <= k < |call| :: id[k] == call[k];
  }

  lemma CallHasNoBar(call: string)
    requires '|' !in call
    ensures Bar(call, 0) == |call|
  {
    assert forall k | 0 <= k < |call| :: call[k] in call;
  }

  /** A part of a Responses id: at most 64 characters, without the underscores that it would end in. */
  predicate IsPart(r: string, s: string) {
    && StandsIn(r, s) && |r| <= Min(|s|, 64) && (r == "" || r[|r| - 1] != '_')
    && forall k | |r| <= k < Min(|s|, 64) :: s[k] == '_' || !IsIdChar(s[k])
  }

  lemma IdPartExactly(s: string)
    ensures IsPart(IdPart(s), s)
  {
    var cut := Cut(Sanitized(s), ANTHROPIC_LENGTH);
    var r := IdPart(s);
    assert forall k | 0 <= k < |r| :: r[k] == cut[k];
  }

  lemma {:induction false} ShortDigits(n: nat, places: nat, limit: nat)
    requires n < limit && limit == Power(places) && places > 0
    ensures |M.Base36(n)| <= places
    decreases places
  {
    hide M.IsAlnum, M.Digit;
    if n >= 36 {
      PowerStep(places);
      if places == 1 {
        assert false;
      } else {
        assert n / 36 < Power(places - 1);
        ShortDigits(n / 36, places - 1, Power(places - 1));
      }
    }
  }

  function Power(places: nat): nat { if places == 0 then 1 else 36 * Power(places - 1) }

  lemma PowerStep(places: nat)
    requires places > 0
    ensures Power(places) == 36 * Power(places - 1)
  {
  }

  /** A short hash has at most fourteen characters. */
  lemma ShortHashIsShort(s: string)
    ensures |M.ShortHash(s)| <= 14
  {
    hide M.Base36, M.Finished, M.MixedAll, M.IsAlnum;
    assert Power(7) == 78364164096 by { SevenPlaces(); }
    var (h1, h2) := M.Finished(M.MixedAll(M.Hash(0xdeadbeef, 0x41c6ce57), s));
    ShortDigits(h1 as nat, 7, Power(7));
    ShortDigits(h2 as nat, 7, Power(7));
  }

  lemma SevenPlaces()
    ensures Power(7) == 78364164096
  {
    assert Power(0) == 1 && Power(1) == 36 && Power(2) == 1296 && Power(3) == 46656 && Power(4) == 1679616;
    assert Power(5) == 60466176 && Power(6) == 2176782336;
  }

  /**
   * The Responses ids. For a provider that is allowed: the part before the bar,
   * a bar, and of another provider's or API's call fc_ with the hash of its item
   * id, of an own one the item part, with fc_ in front if that is not there yet.
   * For any other provider, or without a bar, one part.
   */
  lemma ResponsesIdExactly(call: string, item: string, foreign: bool, allowed: bool)
    requires '|' !in call
    ensures var id := call + ("|" + item);
            ResponsesId(id, foreign, allowed) ==
              if !allowed then IdPart(id)
              else if foreign then IdPart(call) + "|" + ("fc_" + M.ShortHash(item))
              else if "fc_" <= IdPart(item) then IdPart(call) + "|" + IdPart(item)
              else IdPart(call) + "|" + IdPart("fc_" + IdPart(item))
    ensures ResponsesId(call, foreign, allowed) == IdPart(call)
  {
    hide M.ShortHash, IdPart, Sanitized;
    BarBehind(call, item);
    CallHasNoBar(call);
    ShortHashIsShort(item);
  }
}
