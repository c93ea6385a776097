/**
 * Mistral's tool-call ids: at most nine letters and digits, derived from the
 * original id and re-derived on a collision.
 */
module MistralIds {
  import opened Wrappers

  const ID_LENGTH := 9

  predicate IsAlnum(c: char) { 'a' <= c <= 'z' || 'A' <= c <= 'Z' || '0' <= c <= '9' }

  function Stripped(s: string): string {
    if s == "" then "" else (if IsAlnum(s[0]) then [s[0]] else "") + Stripped(s[1..])
  }

  method StripNonAlnum(s: string) returns (r: string)
    ensures r == Stripped(s)
    ensures forall c | c in r :: IsAlnum(c)
  {
    r := "";
    for i := 0 to |s|
      invariant Stripped(s) == r + Stripped(s[i..])
      invariant forall c | c in r :: IsAlnum(c)
    {
      hide IsAlnum;
      assert s[i..][0] == s[i] && s[i..][1..] == s[i + 1..];
      if IsAlnum(s[i]) {
        r := r + [s[i]];
      }
    }
    assert r + "" == r;
  }

  lemma {:induction false} AlnumStripped(s: string)
    requires forall c | c in s :: IsAlnum(c)
    ensures Stripped(s) == s
  {
    if s != "" {
      assert s[0] in s;
      AlnumStripped(s[1..]);
      assert s == [s[0]] + s[1..];
    }
  }

  // ----- The hash ------------------------------------------------------------------------

  function Digit(d: nat): (c: char)
    requires d < 36
    ensures IsAlnum(c)
  {
    if d < 10 then '0' + d as char else 'a' + (d - 10) as char
  }

  function Base36(n: nat): (r: string)
    ensures r != "" && forall c | c in r :: IsAlnum(c)
  {
    hide IsAlnum;
    (if n < 36 then "" else Base36(n / 36)) + [Digit(n % 36)]
  }

  function Decimal(n: nat): (r: string)
    ensures r != "" && forall c | c in r :: IsAlnum(c)
  {
    hide IsAlnum;
    (if n < 10 then "" else Decimal(n / 10)) + [Digit(n % 10)]
  }

  lemma DecimalOfDigit(n: nat)
    requires n < 10
    ensures Decimal(n) == ["0123456789"[n]]
  {
  }

  lemma DecimalNext(n: nat, d: nat)
    requires n > 0 && d < 10
    ensures Decimal(10 * n + d) == Decimal(n) + ["0123456789"[d]]
  {
    assert (10 * n + d) / 10 == n && (10 * n + d) % 10 == d;
  }

  /** The UTF-16 code units of one character. */
  function CodeUnits(c: char): seq<bv32> {
    var n := c as int;
    if n < 0x1_0000 then [n as bv32]
    else [(0xD800 + (n - 0x1_0000) / 0x400) as bv32, (0xDC00 + (n - 0x1_0000) % 0x400) as bv32]
  }

  datatype Hash = Hash(h1: bv32, h2: bv32)

  function Mixed(h: Hash, units: seq<bv32>): Hash
    decreases |units|
  {
    if units == [] then h
    else Mixed(Hash((h.h1 ^ units[0]) * 2654435761, (h.h2 ^ units[0]) * 1597334677), units[1..])
  }

  function MixedAll(h: Hash, s: string): Hash
    decreases |s|
  {
    if s == "" then h else MixedAll(Mixed(h, CodeUnits(s[0])), s[1..])
  }

  function Finished(h: Hash): (bv32, bv32) {
    var h1 := ((h.h1 ^ (h.h1 >> 16)) * 2246822507) ^ ((h.h2 ^ (h.h2 >> 13)) * 3266489909);
    var h2 := ((h.h2 ^ (h.h2 >> 16)) * 2246822507) ^ ((h1 ^ (h1 >> 13)) * 3266489909);
    (h1, h2)
  }

  function ShortHash(s: string): (r: string)
    ensures |r| >= 2 && forall c | c in r :: IsAlnum(c)
  {
    var h := MixedAll(Hash(0xdeadbeef, 0x41c6ce57), s);
    var (h1, h2) := Finished(h);
    Base36(h2 as nat) + Base36(h1 as nat)
  }

  // ----- Candidates ----------------------------------------------------------------------

  /** What Mistral takes for an id. */
  predicate IsMistralId(s: string) { 0 < |s| <= ID_LENGTH && forall c | c in s :: IsAlnum(c) }

  function Candidate(id: string, attempt: nat): string {
    var normalized := Stripped(id);
    if attempt == 0 && |normalized| == ID_LENGTH then normalized
    else
      var seedBase := if normalized == "" then id else normalized;
      var seed := if attempt == 0 then seedBase else seedBase + ":" + Decimal(attempt);
      var hashed := Stripped(ShortHash(seed));
      if |hashed| > ID_LENGTH then hashed[..ID_LENGTH] else hashed
  }

  lemma {:induction false} StrippedIsAlnum(s: string)
    ensures forall c | c in Stripped(s) :: IsAlnum(c)
  {
    if s != "" {
      StrippedIsAlnum(s[1..]);
    }
  }

  lemma CandidateIsMistralId(id: string, attempt: nat)
    ensures IsMistralId(Candidate(id, attempt))
  {
    hide ShortHash, Decimal, IsAlnum;
    var normalized := Stripped(id);
    StrippedIsAlnum(id);
    var seedBase := if normalized == "" then id else normalized;
    var seed := if attempt == 0 then seedBase else seedBase + ":" + Decimal(attempt);
    AlnumStripped(ShortHash(seed));
  }

  method DeriveMistralToolCallId(id: string, attempt: nat) returns (r: string)
    ensures r == Candidate(id, attempt) && IsMistralId(r)
  {
    hide ShortHash, Decimal, IsAlnum, Stripped;
    var normalized := StripNonAlnum(id);
    CandidateIsMistralId(id, attempt);
    if attempt == 0 && |normalized| == ID_LENGTH {
      return normalized;
    }
    var seedBase := normalized;
    if seedBase == "" {
      seedBase := id;
    }
    var seed := seedBase;
    if attempt != 0 {
      seed := seedBase + ":" + Decimal(attempt);
    }
    var hashed := StripNonAlnum(ShortHash(seed));
    if |hashed| > ID_LENGTH {
      hashed := hashed[..ID_LENGTH];
    }
    r := hashed;
  }

  // ----- The normalizer ------------------------------------------------------------------

  /** The answer to each id, and the id behind each answer. */
  datatype Maps = Maps(answers: map<string, string>, owners: map<string, string>)

  const NO_MAPS := Maps(map[], map[])

  predicate IsFree(m: Maps, id: string, candidate: string) {
    candidate !in m.owners || m.owners[candidate] == id
  }

  /** The two maps are inverses of each other, and every answer is an id for Mistral. */
  ghost predicate MutuallyInverse(m: Maps) {
    && (forall id | id in m.answers :: m.answers[id] in m.owners && m.owners[m.answers[id]] == id)
    && (forall a | a in m.owners :: m.owners[a] in m.answers && m.answers[m.owners[a]] == a)
    && (forall a | a in m.owners :: IsMistralId(a))
  }

  /** A repeated id gets its answer again; a new id gets the first candidate that no other id owns. */
  ghost predicate Answers(m: Maps, id: string, r: string, m': Maps) {
    if id in m.answers then r == m.answers[id] && m' == m
    else
      && m' == Maps(m.answers[id := r], m.owners[r := id])
      && exists n: nat :: Candidate(id, n) == r && IsFree(m, id, r) && NoneFreeBefore(m, id, n)
  }

  ghost predicate NoneFreeBefore(m: Maps, id: string, n: nat) {
    forall k: nat | k < n :: !IsFree(m, id, Candidate(id, k))
  }

  class Normalizer {
    var idMap: map<string, string>
    var reverseMap: map<string, string>

    ghost function Abstract(): Maps reads this { Maps(idMap, reverseMap) }

    ghost predicate Valid() reads this { MutuallyInverse(Abstract()) }

    constructor ()
      ensures Valid() && Abstract() == NO_MAPS
    {
      idMap, reverseMap := map[], map[];
    }

    /**
     * The retry loop is watched for so many attempts; it goes on after them
     * exactly if all their candidates belong to other ids.
     */
    method Normalize(id: string, attempts: nat) returns (r: Option<string>)
      requires Valid()
      modifies this
      ensures Valid()
      ensures r.Some? ==> Answers(old(Abstract()), id, r.value, Abstract())
      ensures r.None? <==> id !in old(idMap) && NoneFreeBefore(old(Abstract()), id, attempts)
      ensures r.None? ==> Abstract() == old(Abstract())
    {
      hide Candidate;
      if id in idMap {
        return Some(idMap[id]);
      }
      var attempt := 0;
      while attempt < attempts
        invariant attempt <= attempts && NoneFreeBefore(Abstract(), id, attempt)
        invariant Valid() && idMap == old(idMap) && reverseMap == old(reverseMap)
      {
        var candidate := DeriveMistralToolCallId(id, attempt);
        if candidate !in reverseMap || reverseMap[candidate] == id {
          AnswerKeepsInverse(Abstract(), id, candidate);
          assert IsFree(Abstract(), id, Candidate(id, attempt));
          idMap := idMap[id := candidate];
          reverseMap := reverseMap[candidate := id];
          return Some(candidate);
        }
        attempt := attempt + 1;
      }
      r := None;
    }
  }

  lemma AnswerKeepsInverse(m: Maps, id: string, r: string)
    requires MutuallyInverse(m) && id !in m.answers && IsFree(m, id, r) && IsMistralId(r)
    ensures MutuallyInverse(Maps(m.answers[id := r], m.owners[r := id]))
  {
  }

  // ----- Any number of calls ---------------------------------------------------------------

  /** One request's normalizer is asked for ids one after the other. */
  ghost predicate IsRun(states: seq<Maps>, ids: seq<string>, answers: seq<string>) {
    && |states| == |ids| + 1 && |answers| == |ids| && states[0] == NO_MAPS
    && forall k | 0 <= k < |ids| :: Answers(states[k], ids[k], answers[k], states[k + 1])
  }

  lemma {:induction false} RunKeepsInverse(states: seq<Maps>, ids: seq<string>, answers: seq<string>, n: nat)
    requires IsRun(states, ids, answers) && n <= |ids|
    ensures MutuallyInverse(states[n])
    ensures forall k | 0 <= k < n :: ids[k] in states[n].answers && states[n].answers[ids[k]] == answers[k]
    decreases n
  {
    hide Candidate, IsMistralId;
    if n > 0 {
      RunKeepsInverse(states, ids, answers, n - 1);
      var m, id, r := states[n - 1], ids[n - 1], answers[n - 1];
      assert Answers(m, id, r, states[n]);
      if id !in m.answers {
        var a: nat :| Candidate(id, a) == r && IsFree(m, id, r);
        CandidateIsMistralId(id, a);
        AnswerKeepsInverse(m, id, r);
      }
    }
  }

  /**
   * Over any run the answers are ids for Mistral, repeated ids get the same
   * answer, and distinct ids get distinct answers.
   */
  lemma RunAnswersOneToOne(states: seq<Maps>, ids: seq<string>, answers: seq<string>)
    requires IsRun(states, ids, answers)
    ensures forall k | 0 <= k < |ids| :: IsMistralId(answers[k])
    ensures forall j, k | 0 <= j < |ids| && 0 <= k < |ids| :: ids[j] == ids[k] <==> answers[j] == answers[k]
  {
    hide Candidate, IsMistralId;
    RunKeepsInverse(states, ids, answers, |ids|);
  }

  // ----- Known hashes ---------------------------------------------------------------------

  lemma FirstDigit(d: nat)
    requires d < 36
    ensures Base36(d) == [Digit(d)]
  {
    hide IsAlnum, Digit;
  }

  lemma NextDigit(q: nat, d: nat, before: string)
    requires q > 0 && d < 36 && Base36(q) == before
    ensures Base36(q * 36 + d) == before + [Digit(d)]
  {
  }

  lemma EmptyFinished()
    ensures Finished(Hash(0xdeadbeef, 0x41c6ce57)) == (451841411, 1217125560)
  {
  }

  lemma LetterFinished()
    ensures Finished(Hash(0xa9b3de2e, 0xac711d6e)) == (2194241793, 1344023463)
  {
  }

  lemma EmptyHigh()
    ensures Base36(1217125560) == "k4n83c"
  {
    hide Base36;
    FirstDigit(20);
    NextDigit(20, 4, "k");
    NextDigit(724, 23, "k4");
    NextDigit(26087, 8, "k4n");
    NextDigit(939140, 3, "k4n8");
    NextDigit(33809043, 12, "k4n83");
  }

  lemma EmptyLow()
    ensures Base36(451841411) == "7h0j2b"
  {
    hide Base36;
    FirstDigit(7);
    NextDigit(7, 17, "7");
    NextDigit(269, 0, "7h");
    NextDigit(9684, 19, "7h0");
    NextDigit(348643, 2, "7h0j");
    NextDigit(12551150, 11, "7h0j2");
  }

  lemma LetterHigh()
    ensures Base36(1344023463) == "m87353"
  {
    hide Base36;
    FirstDigit(22);
    NextDigit(22, 8, "m");
    NextDigit(800, 7, "m8");
    NextDigit(28807, 3, "m87");
    NextDigit(1037055, 5, "m873");
    NextDigit(37333985, 3, "m8735");
  }

  lemma LetterLow()
    ensures Base36(2194241793) == "10ae7sx"
  {
    hide Base36;
    FirstDigit(1);
    NextDigit(1, 0, "1");
    NextDigit(36, 10, "10");
    NextDigit(1306, 14, "10a");
    NextDigit(47030, 7, "10ae");
    NextDigit(1693087, 28, "10ae7");
    NextDigit(60951160, 33, "10ae7s");
  }

  lemma LetterUnits()
    ensures CodeUnits('a') == [97]
  {
  }

  lemma LetterMixed()
    ensures Mixed(Hash(0xdeadbeef, 0x41c6ce57), [97]) == Hash(0xa9b3de2e, 0xac711d6e)
  {
    var unit: bv32 := 97;
    assert [unit][1..] == [];
  }

  lemma OneCharacter(h: Hash, c: char)
    ensures MixedAll(h, [c]) == Mixed(h, CodeUnits(c))
  {
    hide Mixed, CodeUnits;
    assert [c][1..] == "";
  }

  lemma HashedFrom(s: string, h: Hash, h1: bv32, h2: bv32, low: string, high: string)
    requires MixedAll(Hash(0xdeadbeef, 0x41c6ce57), s) == h && Finished(h) == (h1, h2)
    requires Base36(h1 as nat) == low && Base36(h2 as nat) == high
    ensures ShortHash(s) == high + low
  {
    hide Base36, Finished, MixedAll;
  }

  lemma NoCharacter(h: Hash)
    ensures MixedAll(h, "") == h
  {
  }

  lemma EmptyHash()
    ensures ShortHash("") == "k4n83c7h0j2b"
  {
    hide Base36, Finished, MixedAll, ShortHash;
    NoCharacter(Hash(0xdeadbeef, 0x41c6ce57));
    EmptyFinished();
    EmptyHigh();
    EmptyLow();
    HashedFrom("", Hash(0xdeadbeef, 0x41c6ce57), 451841411, 1217125560, Base36(451841411), Base36(1217125560));
  }

  lemma LetterHash()
    ensures ShortHash("a") == "m8735310ae7sx"
  {
    hide Base36, Finished, MixedAll, Mixed, CodeUnits, ShortHash;
    OneCharacter(Hash(0xdeadbeef, 0x41c6ce57), 'a');
    LetterUnits();
    LetterMixed();
    LetterFinished();
    LetterHigh();
    LetterLow();
    HashedFrom("a", Hash(0xa9b3de2e, 0xac711d6e), 2194241793, 1344023463, Base36(2194241793), Base36(1344023463));
  }

  /** Two hashes that any port must give. */
  lemma KnownHashes()
    ensures ShortHash("") == "k4n83c7h0j2b" && ShortHash("a") == "m8735310ae7sx"
  {
    hide ShortHash;
    EmptyHash();
    LetterHash();
  }

  // ----- Which ids are kept ------------------------------------------------------------------

  lemma {:induction false} StrippedAppend(a: string, b: string)
    ensures Stripped(a + b) == Stripped(a) + Stripped(b)
  {
    hide IsAlnum;
    if a == "" {
      assert a + b == b;
    } else {
      assert (a + b)[1..] == a[1..] + b && (a + b)[0] == a[0];
      StrippedAppend(a[1..], b);
      var first := if IsAlnum(a[0]) then [a[0]] else "";
      assert (first + Stripped(a[1..])) + Stripped(b) == first + (Stripped(a[1..]) + Stripped(b));
    }
  }

  lemma {:induction false} StrippedIsEmpty(s: string)
    requires forall c | c in s :: !IsAlnum(c)
    ensures Stripped(s) == ""
  {
    if s != "" {
      assert s[0] in s;
      StrippedIsEmpty(s[1..]);
    }
  }

  /** Letters and digits stay in order, and what stands between them is dropped. */
  lemma StrippedBetween(before: string, other: string, after: string)
    requires (forall c | c in before + after :: IsAlnum(c)) && (forall c | c in other :: !IsAlnum(c))
    ensures Stripped(before + (other + after)) == before + after
  {
    hide Stripped, IsAlnum;
    assert forall c | c in before :: c in before + after;
    assert forall c | c in after :: c in before + after;
    AlnumStripped(before);
    AlnumStripped(after);
    StrippedIsEmpty(other);
    StrippedAppend(other, after);
    StrippedAppend(before, other + after);
    assert "" + after == after;
  }

  /**
   * Nine letters and digits, whatever stands between them, are their own first
   * candidate; a normalizer that has not given them to another id answers with
   * them.
   */
  lemma NineStay(m: Maps, before: string, other: string, after: string, r: string, m': Maps)
    requires (forall c | c in before + after :: IsAlnum(c)) && (forall c | c in other :: !IsAlnum(c))
    requires |before + after| == 9
    ensures var id := before + (other + after);
            && Candidate(id, 0) == before + after
            && (Answers(m, id, r, m') && id !in m.answers && IsFree(m, id, before + after) ==> r == before + after)
  {
    hide ShortHash, IsAlnum, Stripped, Decimal;
    StrippedBetween(before, other, after);
  }

  /**
   * Any other candidate is the beginning of a hash: of the letters and digits, or
   * of the id if it has none, with the number of the attempt behind a colon from
   * the second attempt on.
   */
  lemma OtherCandidates(id: string, attempt: nat)
    requires attempt > 0 || |Stripped(id)| != 9
    ensures var base := if Stripped(id) != "" then Stripped(id) else id;
            var hash := ShortHash(if attempt > 0 then base + (":" + Decimal(attempt)) else base);
            Candidate(id, attempt) == if |hash| < 9 then hash else hash[..9]
  {
    hide ShortHash, IsAlnum, Stripped, Decimal;
    var base := if Stripped(id) != "" then Stripped(id) else id;
    assert base + ":" + Decimal(attempt) == base + (":" + Decimal(attempt));
    var hash := ShortHash(if attempt > 0 then base + (":" + Decimal(attempt)) else base);
    AlnumStripped(hash);
  }
}
