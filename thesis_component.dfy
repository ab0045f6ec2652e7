/** The thesis card of the Metawahl client (client/src/Thesis.jsx): it
    merges an election's results with the parties' positions on one thesis,
    splits the parties into supporters, neutrals and opponents ordered by
    votes, and classifies how the electorate decided. */
module ThesisComponent {
  import opened Common
  import opened Types
  import Seqs

  /** A party's row after merging a result entry with its position;
      `header` is only set on the record shown as open text. */
  datatype PartyRecord = PartyRecord(
    party: string,
    result: PartyResult,
    value: Stance,
    text: Option<string>,
    header: Option<string>)

  // -----------------------------------------------------------------------
  // Reconciling results with positions

  /** `res[party]["linked_position"] || party`. */
  function LinkedKey(res: Results, party: string): string
    requires party in res.entries
  {
    var link := res.entries[party].linkedPosition;
    if IsFalsyString(link) then party else link.value
  }

  predicate Matches(pos: Position, linked: string, party: string) {
    pos.party == linked || pos.party == party
  }

  /** `positions.filter(pos => Matches(pos, ...)).shift()` as an index. */
  function FirstMatch(positions: seq<Position>, linked: string, party: string): (r: Option<nat>)
    ensures r.Some? ==> r.value < |positions| && Matches(positions[r.value], linked, party)
    ensures r.Some? ==> forall j :: 0 <= j < r.value ==> !Matches(positions[j], linked, party)
    ensures r.None? ==> forall j :: 0 <= j < |positions| ==> !Matches(positions[j], linked, party)
  {
    if positions == [] then None
    else if Matches(positions[0], linked, party) then Some(0)
    else
      match FirstMatch(positions[1..], linked, party)
      case None => None
      case Some(i) => Some(i + 1)
  }

  /** `Object.assign({}, res[party], match || { value: 'missing' }, { party })`. */
  function MergeParty(res: Results, positions: seq<Position>, party: string): PartyRecord
    requires party in res.entries
  {
    match FirstMatch(positions, LinkedKey(res, party), party)
    case None => PartyRecord(party, res.entries[party], Missing, None, None)
    case Some(i) => PartyRecord(party, res.entries[party], positions[i].value, positions[i].text, None)
  }

  predicate DistinctParties(s: seq<PartyRecord>) {
    forall i, j :: 0 <= i < j < |s| ==> s[i].party != s[j].party
  }

  /** `Object.keys(res).map(...)`: one record per result key, in key order.
      The record's `party` is the key even when the matched position names
      the alliance, and a position is not used up by matching: any number
      of keys may take their stance from the same position. */
  function MergedParties(res: Results, positions: seq<Position>): (parties: seq<PartyRecord>)
    requires res.Valid()
    ensures |parties| == |res.keys| && DistinctParties(parties)
    ensures forall i :: 0 <= i < |parties| ==>
      && parties[i].party == res.keys[i]
      && parties[i].result == res.entries[res.keys[i]]
      && parties[i].header.None?
    ensures forall i :: 0 <= i < |parties| ==>
      match FirstMatch(positions, LinkedKey(res, res.keys[i]), res.keys[i])
      case None => parties[i].value == Missing && parties[i].text.None?
      case Some(j) => parties[i].value == positions[j].value && parties[i].text == positions[j].text
  {
    seq(|res.keys|, i requires 0 <= i < |res.keys| => MergeParty(res, positions, res.keys[i]))
  }

  /** The alliance example: `A` runs on `B`'s answers and `B` answers for
      itself; the single position of `B` serves both keys. */
  lemma AllianceSharesPosition(votesA: int, votesB: int, pctA: nat, pctB: nat)
    ensures
      var res := Results(["A", "B"], map[
        "A" := PartyResult(votesA, pctA, None, Some("B")),
        "B" := PartyResult(votesB, pctB, None, None)]);
      var parties := MergedParties(res, [Position("B", Pro, None)]);
      res.Valid() && parties[0].value == Pro && parties[1].value == Pro
      && parties[0].party == "A" && parties[1].party == "B"
  {
    var res := Results(["A", "B"], map[
      "A" := PartyResult(votesA, pctA, None, Some("B")),
      "B" := PartyResult(votesB, pctB, None, None)]);
    assert res.entries.Keys == set k | k in res.keys by {
      assert "A" in res.keys && "B" in res.keys;
    }
    assert LinkedKey(res, "A") == "B";
    assert FirstMatch([Position("B", Pro, None)], "B", "A") == Some(0);
    assert FirstMatch([Position("B", Pro, None)], "B", "B") == Some(0);
  }

  /** A party none of whose names is answered is `Missing`, and only then
      (for positions that themselves carry a real answer). */
  lemma MissingExactlyWhenUnanswered(res: Results, positions: seq<Position>, i: nat)
    requires res.Valid() && i < |res.keys|
    requires forall j :: 0 <= j < |positions| ==> positions[j].value != Missing
    ensures var k := res.keys[i];
      MergedParties(res, positions)[i].value == Missing
      <==> forall j :: 0 <= j < |positions| ==>
             positions[j].party != LinkedKey(res, k) && positions[j].party != k
  {
  }

  // -----------------------------------------------------------------------
  // Ordering: votes descending, then party key ascending

  /** `sortPositions(a, b) < 0`, reading the votes from the record's own
      result entry (the one `res[a.party]` names). */
  predicate Precedes(a: PartyRecord, b: PartyRecord) {
    a.result.votes > b.result.votes
    || (a.result.votes == b.result.votes && StrLess(a.party, b.party))
  }

  ghost predicate NoInversion(s: seq<PartyRecord>) {
    forall i, j :: 0 <= i < j < |s| ==> !Precedes(s[j], s[i])
  }

  ghost predicate StrictlySorted(s: seq<PartyRecord>) {
    forall i, j :: 0 <= i < j < |s| ==> Precedes(s[i], s[j])
  }

  lemma PrecedesTransitive(a: PartyRecord, b: PartyRecord, c: PartyRecord)
    requires Precedes(a, b) && Precedes(b, c)
    ensures Precedes(a, c)
  {
    if a.result.votes == b.result.votes == c.result.votes {
      StrLessTransitive(a.party, b.party, c.party);
    }
  }

  lemma PrecedesAsymmetric(a: PartyRecord, b: PartyRecord)
    requires Precedes(a, b)
    ensures !Precedes(b, a)
  {
    if a.result.votes == b.result.votes {
      StrLessAsymmetric(a.party, b.party);
    }
  }

  /** Records of different parties are always ordered one way or the other. */
  lemma PrecedesTotal(a: PartyRecord, b: PartyRecord)
    requires a.party != b.party
    ensures Precedes(a, b) || Precedes(b, a)
  {
    StrLessTotal(a.party, b.party);
  }

  lemma PrecedesNegativeTransitive(a: PartyRecord, b: PartyRecord, c: PartyRecord)
    requires !Precedes(a, b) && !Precedes(b, c)
    ensures !Precedes(a, c)
  {
    if Precedes(a, c) && a.result.votes == b.result.votes == c.result.votes {
      if a.party == b.party {
      } else if b.party == c.party {
      } else {
        StrLessTotal(a.party, b.party);
        StrLessTransitive(b.party, a.party, c.party);
      }
    }
  }

  function InsertRecord(x: PartyRecord, s: seq<PartyRecord>): (r: seq<PartyRecord>)
    requires NoInversion(s)
    ensures multiset(r) == multiset(s) + multiset{x}
    ensures NoInversion(r)
    ensures |r| == |s| + 1 && (r[0] == x || (s != [] && r[0] == s[0]))
  {
    if s == [] || Precedes(x, s[0]) then
      assert forall j :: 0 <= j < |s| ==> !Precedes(s[j], x) by {
        forall j | 0 <= j < |s| ensures !Precedes(s[j], x) {
          if j == 0 {
            PrecedesAsymmetric(x, s[0]);
          } else if Precedes(s[j], x) {
            PrecedesTransitive(s[j], x, s[0]);
          }
        }
      }
      NoInversionCons(x, s);
      [x] + s
    else
      NoInversionTail(s);
      var t := InsertRecord(x, s[1..]);
      assert s == [s[0]] + s[1..];
      assert forall k :: 0 <= k < |t| ==> !Precedes(t[k], s[0]) by {
        forall k | 0 <= k < |t| ensures !Precedes(t[k], s[0]) {
          if k > 0 {
            PrecedesNegativeTransitive(t[k], t[0], s[0]);
          }
        }
      }
      NoInversionCons(s[0], t);
      [s[0]] + t
  }

  lemma NoInversionTail(s: seq<PartyRecord>)
    requires s != [] && NoInversion(s)
    ensures NoInversion(s[1..])
    ensures forall k :: 1 <= k < |s| ==> !Precedes(s[k], s[0])
  {
    forall i, j | 0 <= i < j < |s| - 1 ensures !Precedes(s[1..][j], s[1..][i]) {
      assert s[1..][i] == s[i + 1] && s[1..][j] == s[j + 1];
    }
  }

  /** A record that nothing behind it should precede can go in front. */
  lemma NoInversionCons(h: PartyRecord, t: seq<PartyRecord>)
    requires NoInversion(t) && forall k :: 0 <= k < |t| ==> !Precedes(t[k], h)
    ensures NoInversion([h] + t)
  {
    var r := [h] + t;
    forall i, j | 0 <= i < j < |r| ensures !Precedes(r[j], r[i]) {
      assert r[j] == t[j - 1];
      if i > 0 {
        assert r[i] == t[i - 1];
      }
    }
  }

  /** `Array.prototype.sort(sortPositions)`: a permutation with no pair out
      of order. */
  function SortPositions(s: seq<PartyRecord>): (r: seq<PartyRecord>)
    ensures multiset(r) == multiset(s) && |r| == |s|
    ensures NoInversion(r)
  {
    if s == [] then []
    else
      assert s == [s[0]] + s[1..];
      InsertRecord(s[0], SortPositions(s[1..]))
  }

  lemma {:induction false} DistinctPartiesCount(s: seq<PartyRecord>, x: PartyRecord)
    requires DistinctParties(s)
    ensures multiset(s)[x] <= 1
  {
    if s != [] {
      DistinctPartiesCount(s[1..], x);
      assert s == [s[0]] + s[1..];
      if s[0] == x {
        assert x !in s[1..] by {
          forall j | 0 <= j < |s| - 1 ensures s[1..][j] != x { assert s[1..][j] == s[j + 1]; }
        }
      }
    }
  }

  /** A permutation of records with distinct parties has distinct parties. */
  lemma PermutationDistinct(s: seq<PartyRecord>, r: seq<PartyRecord>)
    requires DistinctParties(s) && multiset(r) == multiset(s)
    ensures DistinctParties(r)
  {
    SubMultisetDistinct(s, r);
  }

  /** Records drawn from a list with distinct parties, each at most as
      often as there, have distinct parties. */
  lemma SubMultisetDistinct(s: seq<PartyRecord>, r: seq<PartyRecord>)
    requires DistinctParties(s) && multiset(r) <= multiset(s)
    ensures DistinctParties(r)
  {
    forall i, j | 0 <= i < j < |r| ensures r[i].party != r[j].party {
      if r[i] == r[j] {
        TwiceCounted(r, i, j);
        DistinctPartiesCount(s, r[i]);
      } else {
        assert r[i] in multiset(s) && r[j] in multiset(s);
        var a :| 0 <= a < |s| && s[a] == r[i];
        var b :| 0 <= b < |s| && s[b] == r[j];
        assert a != b;
      }
    }
  }

  lemma TwiceCounted(r: seq<PartyRecord>, i: nat, j: nat)
    requires i < j < |r| && r[i] == r[j]
    ensures multiset(r)[r[i]] >= 2
  {
    assert r == r[..j] + r[j..];
    assert r[..j][i] == r[i];
    assert r[j..][0] == r[j];
    assert multiset(r) == multiset(r[..j]) + multiset(r[j..]);
  }

  /** Without ties (distinct parties) the order is strict. */
  lemma StrictWhenDistinct(s: seq<PartyRecord>)
    requires NoInversion(s) && DistinctParties(s)
    ensures StrictlySorted(s)
  {
    forall i, j | 0 <= i < j < |s| ensures Precedes(s[i], s[j]) {
      PrecedesTotal(s[i], s[j]);
    }
  }

  /** Two strictly sorted arrangements of the same records start alike. */
  lemma SortedSameHead(a: seq<PartyRecord>, b: seq<PartyRecord>)
    requires a != [] && multiset(a) == multiset(b)
    requires StrictlySorted(a) && StrictlySorted(b)
    ensures b != [] && a[0] == b[0]
  {
    assert a[0] in multiset(b);
    var k :| 0 <= k < |b| && b[k] == a[0];
    assert b[0] in multiset(a);
    var m :| 0 <= m < |a| && a[m] == b[0];
    if k > 0 {
      assert Precedes(b[0], a[0]);
      if m > 0 {
        assert Precedes(a[0], b[0]);
        PrecedesAsymmetric(b[0], a[0]);
      }
    }
  }

  /** The order is total on distinct parties, so every correct sort of the
      same records gives the same list: the sort algorithm does not matter. */
  lemma {:induction false} SortedUnique(a: seq<PartyRecord>, b: seq<PartyRecord>)
    requires multiset(a) == multiset(b)
    requires StrictlySorted(a) && StrictlySorted(b)
    ensures a == b
    decreases |a|
  {
    if a == [] {
      assert |b| == |multiset(b)| == 0;
    } else {
      SortedSameHead(a, b);
      MultisetTail(a);
      MultisetTail(b);
      StrictTail(a);
      StrictTail(b);
      SortedUnique(a[1..], b[1..]);
      assert a == [a[0]] + a[1..] && b == [b[0]] + b[1..];
    }
  }

  lemma MultisetTail(s: seq<PartyRecord>)
    requires s != []
    ensures multiset(s[1..]) == multiset(s) - multiset{s[0]}
  {
    assert s == [s[0]] + s[1..];
  }

  lemma StrictTail(s: seq<PartyRecord>)
    requires s != [] && StrictlySorted(s)
    ensures StrictlySorted(s[1..])
  {
    forall i, j | 0 <= i < j < |s| - 1 ensures Precedes(s[1..][i], s[1..][j]) {
      assert s[1..][i] == s[i + 1] && s[1..][j] == s[j + 1];
    }
  }

  // -----------------------------------------------------------------------
  // Partition, ratios and opinion

  function OfStance(parties: seq<PartyRecord>, v: Stance): (r: seq<PartyRecord>)
    ensures forall i :: 0 <= i < |r| ==> r[i].value == v
    ensures forall i :: 0 <= i < |parties| && parties[i].value == v ==> parties[i] in r
    ensures multiset(r) <= multiset(parties)
  {
    Seqs.Filter(parties, (p: PartyRecord) => p.value == v)
  }

  /** `countVotes` of `updateVoterOpinion`: a party missing from the results adds nothing. */
  function PctOf(res: Results, r: PartyRecord): nat {
    if r.party in res.entries then res.entries[r.party].pct else 0
  }

  function SumPct(res: Results, s: seq<PartyRecord>): int {
    Seqs.SumOf(s, (r: PartyRecord) => PctOf(res, r) as int)
  }

  /** `updateVoterOpinion`'s rule (shares in hundredths of a percent). */
  function VoterOpinion(ratioPro: int, ratioContra: int): (o: int)
    ensures -1 <= o <= 1
  {
    if ratioPro > 5000 then 1
    else if ratioContra < 5000 then 0
    else -1
  }

  /** Exactly half is not a majority in favour, and a pro majority wins
      whatever the opposing share. */
  lemma OpinionBoundaries(ratioContra: int)
    ensures VoterOpinion(5000, ratioContra) != 1
    ensures VoterOpinion(5001, ratioContra) == 1
    ensures VoterOpinion(1000, 4999) == 0
    ensures VoterOpinion(1000, 5000) == -1
  {
  }

  /** When the two shares cannot exceed the whole electorate, the verdict
      never contradicts either share. */
  lemma OpinionConsistent(ratioPro: nat, ratioContra: nat)
    requires ratioPro + ratioContra <= 10000
    ensures VoterOpinion(ratioPro, ratioContra) == 1 ==> ratioContra < 5000
    ensures VoterOpinion(ratioPro, ratioContra) == -1 ==> ratioContra >= 5000 && ratioPro <= 5000
    ensures VoterOpinion(ratioPro, ratioContra) == 0 ==> ratioPro <= 5000 && ratioContra < 5000
  {
  }

  datatype Analysis = Analysis(
    parties: seq<PartyRecord>,
    pro: seq<PartyRecord>,
    neutral: seq<PartyRecord>,
    contra: seq<PartyRecord>,
    ratioPro: int,
    ratioContra: int,
    opinion: int)

  /** `mergePartyData` followed by `updateVoterOpinion`. */
  function Analyze(res: Results, positions: seq<Position>): (a: Analysis)
    requires res.Valid()
    ensures a.parties == MergedParties(res, positions)
    ensures multiset(a.pro) == multiset(OfStance(a.parties, Pro)) && StrictlySorted(a.pro)
    ensures multiset(a.neutral) == multiset(OfStance(a.parties, Neutral)) && StrictlySorted(a.neutral)
    ensures multiset(a.contra) == multiset(OfStance(a.parties, Contra)) && StrictlySorted(a.contra)
    ensures a.ratioPro == SumPct(res, OfStance(a.parties, Pro))
    ensures a.ratioContra == SumPct(res, OfStance(a.parties, Contra))
    ensures a.opinion == VoterOpinion(a.ratioPro, a.ratioContra)
  {
    var parties := MergedParties(res, positions);
    var pro := SortedStance(parties, Pro);
    var neutral := SortedStance(parties, Neutral);
    var contra := SortedStance(parties, Contra);
    var ratioPro := SumPct(res, pro);
    var ratioContra := SumPct(res, contra);
    Seqs.SumOfPermutation(pro, OfStance(parties, Pro), (r: PartyRecord) => PctOf(res, r) as int);
    Seqs.SumOfPermutation(contra, OfStance(parties, Contra), (r: PartyRecord) => PctOf(res, r) as int);
    Analysis(parties, pro, neutral, contra, ratioPro, ratioContra, VoterOpinion(ratioPro, ratioContra))
  }

  /** `parties.filter(p => p.value === v).sort(sortPositions)`. */
  function SortedStance(parties: seq<PartyRecord>, v: Stance): (r: seq<PartyRecord>)
    requires DistinctParties(parties)
    ensures multiset(r) == multiset(OfStance(parties, v)) && StrictlySorted(r)
  {
    var f := OfStance(parties, v);
    var r := SortPositions(f);
    FilterDistinct(parties, v);
    PermutationDistinct(f, r);
    StrictWhenDistinct(r);
    r
  }

  lemma FilterDistinct(parties: seq<PartyRecord>, v: Stance)
    requires DistinctParties(parties)
    ensures DistinctParties(OfStance(parties, v))
  {
    SubMultisetDistinct(parties, OfStance(parties, v));
  }

  /** Missing parties appear in none of the three lists, and every other
      party in exactly the one of its stance. */
  lemma {:induction false} PartitionCovers(parties: seq<PartyRecord>)
    ensures |OfStance(parties, Pro)| + |OfStance(parties, Neutral)| + |OfStance(parties, Contra)|
            + |OfStance(parties, Missing)| == |parties|
  {
    if parties != [] {
      PartitionCovers(parties[1..]);
    }
  }

  /** With no positions at all every party is missing, both shares are zero
      and there is no majority. */
  lemma NoPositionsNoMajority(res: Results)
    requires res.Valid()
    ensures var a := Analyze(res, []);
      a.pro == [] && a.neutral == [] && a.contra == []
      && a.ratioPro == 0 && a.ratioContra == 0 && a.opinion == 0
      && forall i :: 0 <= i < |a.parties| ==> a.parties[i].value == Missing
  {
    var a := Analyze(res, []);
    NoStanceWithoutPositions(res, Pro);
    NoStanceWithoutPositions(res, Neutral);
    NoStanceWithoutPositions(res, Contra);
    assert |a.pro| == 0 by { assert |multiset(a.pro)| == 0; }
    assert |a.neutral| == 0 by { assert |multiset(a.neutral)| == 0; }
    assert |a.contra| == 0 by { assert |multiset(a.contra)| == 0; }
  }

  lemma NoStanceWithoutPositions(res: Results, v: Stance)
    requires res.Valid() && v != Missing
    ensures forall i :: 0 <= i < |MergedParties(res, [])| ==> MergedParties(res, [])[i].value == Missing
    ensures OfStance(MergedParties(res, []), v) == []
  {
    var parties := MergedParties(res, []);
    Seqs.FilterNone(parties, (p: PartyRecord) => p.value == v);
  }

  // -----------------------------------------------------------------------
  // Colour of the header

  /** Index into the colour palette: 2 without a majority, 0/1 for a strong
      or plain majority against, 4/3 for one in favour. */
  function OpinionColour(opinion: int, ratioPro: int, ratioContra: int): (c: nat)
    ensures c <= 4
  {
    if opinion == 0 then 2
    else if opinion == -1 then (if ratioContra > 6600 then 0 else 1)
    else (if ratioPro > 6600 then 4 else 3)
  }

  /** The colour tells the opinion apart, and the darker shade marks a
      share above two thirds... of 66 percent, strictly. */
  lemma ColourReflectsOpinion(opinion: int, ratioPro: int, ratioContra: int)
    requires -1 <= opinion <= 1
    ensures OpinionColour(opinion, ratioPro, ratioContra) == 2 <==> opinion == 0
    ensures OpinionColour(opinion, ratioPro, ratioContra) < 2 <==> opinion == -1
    ensures OpinionColour(opinion, ratioPro, ratioContra) == 0 <==> opinion == -1 && ratioContra > 6600
    ensures OpinionColour(opinion, ratioPro, ratioContra) == 4 <==> opinion == 1 && ratioPro > 6600
  {
  }

  // -----------------------------------------------------------------------
  // Open text

  const NotRepresentedText := "Diese Partei war im Wahl-o-Mat zu dieser Wahl nicht vertreten."
  const NoReasonText := "Es liegt keine Begründung zur Position dieser Partei vor."

  /** `" — " + valueNames[value]`, empty for a value without a name. */
  function ValueLabel(v: Stance): string {
    match v
    case Pro => " — Pro"
    case Neutral => " — Neutral"
    case Contra => " — Contra"
    case Missing => ""
  }

  /** A share as JavaScript prints a number with at most two decimals: the
      whole percent, then a point and the decimals only when there are some. */
  function PctToString(h: nat): (r: string)
    ensures NatToString(h / 100) <= r
    ensures h % 100 == 0 <==> r == NatToString(h / 100)
    ensures |r| > |NatToString(h / 100)| ==> r[|NatToString(h / 100)|] == '.'
  {
    var whole := NatToString(h / 100);
    var frac := h % 100;
    if frac == 0 then whole
    else if frac % 10 == 0 then whole + "." + [DigitChar(frac / 10)]
    else whole + "." + [DigitChar(frac / 10), DigitChar(frac % 10)]
  }

  /** `(pct || "<0,1") + "%"`: a zero share is shown as below a tenth. */
  function ShareText(pct: nat): (r: string)
    ensures pct == 0 <==> r == "<0,1%"
    ensures |r| >= 1 && r[|r| - 1] == '%'
  {
    var r := (if pct == 0 then "<0,1" else PctToString(pct)) + "%";
    assert pct > 0 ==> IsDigit(r[0]) by {
      if pct > 0 {
        assert r[0] == NatToString(pct / 100)[0];
      }
    }
    r
  }

  /** The whole percent of a nonzero share reads back with `parseInt`. */
  lemma ShareTextParses(pct: nat)
    requires pct > 0
    ensures ParseInt(ShareText(pct)) == Some(pct / 100)
  {
    var whole := NatToString(pct / 100);
    var r := ShareText(pct);
    var rest := r[|whole|..];
    assert r == whole + rest;
    assert rest[0] == '.' || rest[0] == '%';
    assert PadStart(whole, 0, '0') == whole;
    ParsePaddedNat(pct / 100, 0, rest);
  }

  /** `name || party`. */
  function DisplayName(res: Results, party: string): string
    requires party in res.entries
  {
    var name := res.entries[party].name;
    if IsFalsyString(name) then party else name.value
  }

  /** The record `toggleOpen` shows: a missing party gets the
      not-represented text, then a party without reasoning gets the
      no-reasoning text, and either way the header names the party, its
      share and its stance. */
  function OpenText(res: Results, position: PartyRecord): (r: PartyRecord)
    requires position.party in res.entries
    ensures r.party == position.party && r.value == position.value && r.result == position.result
    ensures position.value == Missing ==> r.text == Some(NotRepresentedText)
    ensures position.value != Missing && IsFalsyString(position.text) ==> r.text == Some(NoReasonText)
    ensures position.value != Missing && !IsFalsyString(position.text) ==> r.text == position.text
    ensures r.header == Some(DisplayName(res, position.party) + " — "
      + ShareText(res.entries[position.party].pct) + ValueLabel(position.value))
  {
    var text :=
      if position.value == Missing then Some(NotRepresentedText)
      else if IsFalsyString(position.text) then Some(NoReasonText)
      else position.text;
    var header := DisplayName(res, position.party) + " — "
      + ShareText(res.entries[position.party].pct) + ValueLabel(position.value);
    position.(text := text, header := Some(header))
  }

  /** `s.endsWith(t)`. */
  predicate EndsWith(s: string, t: string) {
    |t| <= |s| && s[|s| - |t|..] == t
  }

  /** The header ends in a stance label exactly when the party took that
      stance; a party missing from the Wahl-o-Mat gets no label and its
      header ends with the share's percent sign. */
  lemma HeaderShowsStance(res: Results, position: PartyRecord, s: Stance)
    requires position.party in res.entries && s != Missing
    ensures EndsWith(OpenText(res, position).header.value, ValueLabel(s)) <==> position.value == s
    ensures position.value == Missing ==> OpenText(res, position).header.value[|OpenText(res, position).header.value| - 1] == '%'
  {
    var h := OpenText(res, position).header.value;
    var share := ShareText(res.entries[position.party].pct);
    var base := DisplayName(res, position.party) + " — " + share;
    var l := ValueLabel(s);
    assert h == base + ValueLabel(position.value);
    assert base[|base| - 1] == share[|share| - 1] == '%';
    if position.value == s {
      assert h[|h| - |l|..] == l;
    } else {
      assert h[|h| - 1] != l[|l| - 1];
    }
    if position.value == Missing {
      assert h == base;
    }
  }

  // -----------------------------------------------------------------------
  // Categories

  /** `handleCategory`: a category already present is not added again. */
  function AddCategory(categories: seq<string>, value: string): (r: seq<string>)
    ensures value in r
    ensures value in categories ==> r == categories
    ensures value !in categories ==> |r| == |categories| + 1 && r[..|categories|] == categories
  {
    if value in categories then categories else categories + [value]
  }

  /** `categories.filter(c => c !== category)`. */
  function RemoveCategory(categories: seq<string>, category: string): (r: seq<string>)
    ensures category !in r
    ensures forall c :: c != category ==> multiset(r)[c] == multiset(categories)[c]
  {
    RemoveKeepsOthers(categories, category);
    Seqs.Filter(categories, Other(category))
  }

  /** The filter callback `c => c !== category`. */
  function Other(category: string): string -> bool {
    (c: string) => c != category
  }

  lemma {:induction false} RemoveKeepsOthers(categories: seq<string>, category: string)
    ensures forall c :: c != category ==>
      multiset(Seqs.Filter(categories, Other(category)))[c] == multiset(categories)[c]
  {
    if categories != [] {
      RemoveKeepsOthers(categories[1..], category);
      assert categories == [categories[0]] + categories[1..];
    }
  }

  /** Removing a category that was just added restores the list. */
  lemma RemoveUndoesAdd(categories: seq<string>, value: string)
    requires value !in categories
    ensures RemoveCategory(AddCategory(categories, value), value) == categories
  {
    Seqs.FilterConcat(categories, [value], Other(value));
    Seqs.FilterAll(categories, Other(value));
  }

  /** Removal works element by element and keeps the order: a list splits
      into the removals from its parts, and a single category stays
      exactly when it is not the one removed. */
  lemma RemoveKeepsOrder(a: seq<string>, b: seq<string>, category: string, x: string)
    ensures RemoveCategory(a + b, category) == RemoveCategory(a, category) + RemoveCategory(b, category)
    ensures RemoveCategory([x], category) == if x == category then [] else [x]
  {
    Seqs.FilterConcat(a, b, Other(category));
  }

  // -----------------------------------------------------------------------
  // The component's state

  class Thesis {
    var openText: Option<PartyRecord>
    var tags: seq<TagInfo>
    var categories: seq<string>
    var loading: bool
    var parties: seq<PartyRecord>
    var proPositions: seq<PartyRecord>
    var neutralPositions: seq<PartyRecord>
    var contraPositions: seq<PartyRecord>
    var voterOpinion: int
    var ratioPro: int
    var ratioContra: int
    var reported: Option<bool>

    /** The initial state; the ratios start at 0.5 percent. */
    constructor (tags: seq<TagInfo>, categories: seq<string>)
      ensures this.tags == tags && this.categories == categories
      ensures openText.None? && !loading && reported.None?
      ensures parties == [] && proPositions == [] && neutralPositions == [] && contraPositions == []
      ensures voterOpinion == 0 && ratioPro == 50 && ratioContra == 50
    {
      this.tags := tags;
      this.categories := categories;
      openText := None;
      loading := false;
      parties, proPositions, neutralPositions, contraPositions := [], [], [], [];
      voterOpinion := 0;
      ratioPro, ratioContra := 50, 50;
      reported := None;
    }

    method MergePartyData(res: Results, positions: seq<Position>)
      requires res.Valid()
      modifies this`parties, this`proPositions, this`neutralPositions, this`contraPositions
      ensures parties == MergedParties(res, positions)
      ensures proPositions == SortedStance(parties, Pro)
      ensures neutralPositions == SortedStance(parties, Neutral)
      ensures contraPositions == SortedStance(parties, Contra)
    {
      parties := MergedParties(res, positions);
      proPositions := SortedStance(parties, Pro);
      neutralPositions := SortedStance(parties, Neutral);
      contraPositions := SortedStance(parties, Contra);
    }

    method UpdateVoterOpinion(res: Results)
      modifies this`voterOpinion, this`ratioPro, this`ratioContra
      ensures ratioPro == SumPct(res, proPositions) && ratioContra == SumPct(res, contraPositions)
      ensures voterOpinion == VoterOpinion(ratioPro, ratioContra)
    {
      ratioPro := SumPct(res, proPositions);
      ratioContra := SumPct(res, contraPositions);
      if ratioPro > 5000 {
        voterOpinion := 1;
      } else if ratioContra < 5000 {
        voterOpinion := 0;
      } else {
        voterOpinion := -1;
      }
    }

    /** `componentWillMount`: the merge, then the opinion, leave the state
        that `Analyze` describes. */
    method ComponentWillMount(res: Results, positions: seq<Position>)
      requires res.Valid()
      modifies this`parties, this`proPositions, this`neutralPositions, this`contraPositions,
        this`voterOpinion, this`ratioPro, this`ratioContra
      ensures var a := Analyze(res, positions);
        parties == a.parties && proPositions == a.pro && neutralPositions == a.neutral
        && contraPositions == a.contra && ratioPro == a.ratioPro
        && ratioContra == a.ratioContra && voterOpinion == a.opinion
    {
      MergePartyData(res, positions);
      UpdateVoterOpinion(res);
    }

    /** `componentWillReceiveProps`: the new tags and categories replace the
        state's, and a replaced results object runs the merge again.
        `mergePartyData` reads `this.props`, which React replaces only after
        this hook returns, so the merge sees the results and positions the
        component held (`heldRes`, `heldPositions`); its `setState` callback
        runs after the update and sums the shares from the new results. */
    method ComponentWillReceiveProps(heldRes: Results, heldPositions: seq<Position>, nextRes: Results,
                                     nextTags: seq<TagInfo>, nextCategories: seq<string>, resultsReplaced: bool)
      requires heldRes.Valid()
      modifies this`tags, this`categories, this`parties, this`proPositions, this`neutralPositions,
        this`contraPositions, this`voterOpinion, this`ratioPro, this`ratioContra
      ensures tags == nextTags && categories == nextCategories
      ensures resultsReplaced ==>
        && parties == MergedParties(heldRes, heldPositions)
        && proPositions == SortedStance(parties, Pro)
        && neutralPositions == SortedStance(parties, Neutral)
        && contraPositions == SortedStance(parties, Contra)
        && ratioPro == SumPct(nextRes, proPositions) && ratioContra == SumPct(nextRes, contraPositions)
        && voterOpinion == VoterOpinion(ratioPro, ratioContra)
      ensures !resultsReplaced ==>
        && parties == old(parties) && proPositions == old(proPositions)
        && neutralPositions == old(neutralPositions) && contraPositions == old(contraPositions)
        && ratioPro == old(ratioPro) && ratioContra == old(ratioContra) && voterOpinion == old(voterOpinion)
    {
      tags := nextTags;
      categories := nextCategories;
      if resultsReplaced {
        MergePartyData(heldRes, heldPositions);
        UpdateVoterOpinion(nextRes);
      }
    }

    method HandleCategory(value: string)
      modifies this`categories, this`loading
      ensures categories == AddCategory(old(categories), value)
      ensures loading == (value !in old(categories) || old(loading))
    {
      if value in categories {
        return;
      }
      loading := true;
      categories := categories + [value];
    }

    method HandleCategoryRemove(category: string)
      modifies this`categories, this`loading
      ensures categories == RemoveCategory(old(categories), category)
      ensures loading
    {
      loading := true;
      categories := RemoveCategory(categories, category);
    }

    /** Clicking "report": pending (`false`) when the browser has an id. */
    method HandleReport(uuid: Option<string>)
      modifies this`reported
      ensures reported == if uuid.Some? then Some(false) else old(reported)
    {
      if uuid.Some? {
        reported := Some(false);
      }
    }

    /** The report request answered: done (`true`) unless the answer is an error. */
    method ReportAnswered(isError: bool)
      modifies this`reported
      ensures reported == if isError then None else Some(true)
    {
      reported := if isError then None else Some(true);
    }

    /** The report request failed: back to not reported. */
    method ReportFailed()
      modifies this`reported
      ensures reported.None?
    {
      reported := None;
    }

    /** `toggleOpen`: shows the open text; returns the clicked record as it
        is afterwards, which gained the header when it was shown as it is. */
    method ToggleOpen(res: Results, position: PartyRecord) returns (clicked: PartyRecord)
      requires position.party in res.entries
      modifies this`openText
      ensures openText == Some(OpenText(res, position))
      ensures clicked == if position.value != Missing && !IsFalsyString(position.text)
                         then openText.value else position
    {
      var shown := OpenText(res, position);
      openText := Some(shown);
      clicked := if position.value != Missing && !IsFalsyString(position.text) then shown else position;
    }

    function VoterOpinionColour(): (c: nat)
      reads this
      ensures c <= 4
    {
      OpinionColour(voterOpinion, ratioPro, ratioContra)
    }
  }
}
