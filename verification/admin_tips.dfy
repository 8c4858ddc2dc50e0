/**
  The tips admin form: splitting the comma/space separated target lists,
  toggling target levels, and validating the form into the create payload.
 */
module AdminTips {
  import opened Wrappers
  import opened Text
  import TipsCreate

  /** The separator class `[\s,;]`. */
  predicate IsSep(c: char) {
    IsSpace(c) || c == ',' || c == ';'
  }

  predicate NoSep(s: string) {
    forall i :: 0 <= i < |s| ==> !IsSep(s[i])
  }

  /** The length of the leading run of non-separators. */
  function TokenLen(s: string): (k: nat)
    ensures k <= |s|
    ensures forall i :: 0 <= i < k ==> !IsSep(s[i])
    ensures k == |s| || IsSep(s[k])
    decreases |s|
  {
    if |s| == 0 || IsSep(s[0]) then 0
    else
      var k := 1 + TokenLen(s[1..]);
      assert forall i :: 1 <= i < k ==> s[i] == s[1..][i - 1];
      k
  }

  /** `splitCsv`: `split(/[\s,;]+/)`, trim, drop empties. The pieces kept
      are the maximal runs of non-separator characters, in order (see
      SplitCsvPiecesAreMaximal). */
  function SplitCsv(s: string): (r: seq<string>)
    ensures forall i :: 0 <= i < |r| ==> r[i] != "" && NoSep(r[i])
    decreases |s|
  {
    if |s| == 0 then []
    else if IsSep(s[0]) then SplitCsv(s[1..])
    else
      var k := TokenLen(s);
      [s[..k]] + SplitCsv(s[k..])
  }

  /** The length of the leading run of separators. */
  function LeadingSeps(s: string): (k: nat)
    ensures k <= |s|
    ensures forall i :: 0 <= i < k ==> IsSep(s[i])
    ensures k == |s| || !IsSep(s[k])
    decreases |s|
  {
    if |s| == 0 || !IsSep(s[0]) then 0
    else
      var k := 1 + LeadingSeps(s[1..]);
      assert forall i :: 1 <= i < k ==> s[i] == s[1..][i - 1];
      k
  }

  predicate AllSeps(s: string) {
    forall i :: 0 <= i < |s| ==> IsSep(s[i])
  }

  /** The input yields no piece exactly when it is all separators. */
  lemma {:induction false} SplitCsvEmptyIffAllSeps(s: string)
    ensures SplitCsv(s) == [] <==> AllSeps(s)
    decreases |s|
  {
    if |s| > 0 && IsSep(s[0]) {
      var t := s[1..];
      SplitCsvEmptyIffAllSeps(t);
      assert forall j :: 0 <= j < |t| ==> t[j] == s[j + 1];
      if AllSeps(t) {
        forall i | 0 <= i < |s| ensures IsSep(s[i]) {
          if i > 0 { assert s[i] == t[i - 1]; }
        }
      }
    }
  }

  /** The pieces are the maximal runs: the first piece starts right after the
      leading separators, is followed by a separator or the end, and the
      remaining pieces are those of what follows it. */
  lemma {:induction false} SplitCsvPiecesAreMaximal(s: string)
    ensures SplitCsv(s) != [] ==>
      var k := LeadingSeps(s);
      var e := k + |SplitCsv(s)[0]|;
      && e <= |s|
      && s[k..e] == SplitCsv(s)[0]
      && (e == |s| || IsSep(s[e]))
      && SplitCsv(s[e..]) == SplitCsv(s)[1..]
    decreases |s|
  {
    if |s| == 0 {
    } else if IsSep(s[0]) {
      var t := s[1..];
      SplitCsvPiecesAreMaximal(t);
      if SplitCsv(t) != [] {
        FirstPieceShift(s, LeadingSeps(t), LeadingSeps(t) + |SplitCsv(t)[0]|);
      }
    } else {
      var k := TokenLen(s);
      assert SplitCsv(s) == [s[..k]] + SplitCsv(s[k..]);
      assert s[0..k] == s[..k];
    }
  }

  /** One leading separator shifts every position after it by one. */
  lemma FirstPieceShift(s: string, k: nat, e: nat)
    requires |s| > 0 && IsSep(s[0]) && k <= e <= |s| - 1
    ensures SplitCsv(s) == SplitCsv(s[1..])
    ensures LeadingSeps(s) == LeadingSeps(s[1..]) + 1
    ensures s[k + 1..e + 1] == s[1..][k..e]
    ensures s[e + 1..] == s[1..][e..]
  {
    SliceShift(s, k, e);
    SliceShift(s, e, |s| - 1);
    assert s[e + 1..|s|] == s[e + 1..];
  }

  lemma SliceShift(s: string, a: nat, b: nat)
    requires a <= b < |s|
    ensures s[a + 1..b + 1] == s[1..][a..b]
  {
  }

  /** Trimming a piece, as the source does after splitting, changes nothing. */
  lemma SplitCsvPiecesAreTrimmed(s: string)
    ensures forall x :: x in SplitCsv(s) ==> Trim(x) == x
  {
    forall x | x in SplitCsv(s) ensures Trim(x) == x {
      assert NoSpace(x);
      TrimNoSpace(x);
    }
  }

  /** `s` with every separator character removed. */
  function RemoveSeps(s: string): (r: string)
    ensures NoSep(r)
    decreases |s|
  {
    if |s| == 0 then []
    else
      var rest := RemoveSeps(s[1..]);
      if IsSep(s[0]) then rest else [s[0]] + rest
  }

  function Concat(pieces: seq<string>): string
    decreases |pieces|
  {
    if |pieces| == 0 then [] else pieces[0] + Concat(pieces[1..])
  }

  lemma {:induction false} RemoveSepsPrefix(s: string, k: nat)
    requires k <= |s|
    requires forall i :: 0 <= i < k ==> !IsSep(s[i])
    ensures RemoveSeps(s) == s[..k] + RemoveSeps(s[k..])
    decreases k
  {
    if k > 0 {
      RemoveSepsPrefix(s[1..], k - 1);
      assert s[1..][k - 1..] == s[k..];
      assert s[..k] == [s[0]] + s[1..][..k - 1];
    }
  }

  /** Splitting loses exactly the separators: the pieces, run together,
      are the input with its separators removed. */
  lemma {:induction false} SplitCsvKeepsEveryOtherChar(s: string)
    ensures Concat(SplitCsv(s)) == RemoveSeps(s)
    decreases |s|
  {
    if |s| > 0 {
      if IsSep(s[0]) {
        SplitCsvKeepsEveryOtherChar(s[1..]);
      } else {
        var k := TokenLen(s);
        SplitCsvKeepsEveryOtherChar(s[k..]);
        RemoveSepsPrefix(s, k);
        assert ([s[..k]] + SplitCsv(s[k..]))[1..] == SplitCsv(s[k..]);
      }
    }
  }

  lemma TokenLenExact(s: string, k: nat)
    requires k <= |s|
    requires forall i :: 0 <= i < k ==> !IsSep(s[i])
    requires k == |s| || IsSep(s[k])
    ensures TokenLen(s) == k
  {
  }

  /** Joining separator-free pieces with commas and splitting again gives
      the pieces back. */
  lemma {:induction false} SplitCsvJoinRoundTrip(pieces: seq<string>)
    requires forall i :: 0 <= i < |pieces| ==> pieces[i] != "" && NoSep(pieces[i])
    ensures SplitCsv(Join(pieces, ",")) == pieces
    decreases |pieces|
  {
    if |pieces| == 1 {
      var s := Join(pieces, ",");
      TokenLenExact(s, |s|);
      assert s[..|s|] == s;
      assert s[|s|..] == [];
    } else if |pieces| > 1 {
      var t := pieces[0];
      var rest := Join(pieces[1..], ",");
      var s := Join(pieces, ",");
      assert s == t + "," + rest;
      assert s[0] == t[0];
      TokenLenExact(s, |t|);
      assert s[..|t|] == t;
      assert s[|t|..] == "," + rest;
      assert ("," + rest)[1..] == rest;
      SplitCsvJoinRoundTrip(pieces[1..]);
    }
  }

  /** The tag list: the lower-cased pieces of the tags field. */
  function ClientTags(text: string): (r: seq<string>)
    ensures |r| == |SplitCsv(text)|
    ensures forall i :: 0 <= i < |r| ==> r[i] == ToLower(SplitCsv(text)[i]) && r[i] != "" && NoUpper(r[i])
  {
    var pieces := SplitCsv(text);
    var r := seq(|pieces|, i requires 0 <= i < |pieces| => ToLower(pieces[i]));
    forall i | 0 <= i < |r| ensures NoUpper(r[i]) { ToLowerSpec(pieces[i]); }
    r
  }

  /** Lower-casing keeps a character off the separator class. */
  lemma ToLowerNoSep(s: string)
    requires NoSep(s)
    ensures NoSep(ToLower(s))
  {
    forall i | 0 <= i < |s| ensures !IsSep(ToLower(s)[i]) {
      assert ToLower(s)[i] == LowerChar(s[i]);
    }
  }

  /** The tags the form sends are already in the form the create handler
      stores: its normalisation leaves them unchanged. */
  lemma ClientTagsNeedNoNormalising(text: string)
    ensures TipsCreate.NormaliseEach(ClientTags(text)) == ClientTags(text)
    ensures forall x :: x in TipsCreate.NormaliseTags(ClientTags(text)) <==> x in ClientTags(text)
  {
    var tags := ClientTags(text);
    var pieces := SplitCsv(text);
    forall i | 0 <= i < |tags| ensures TipsCreate.NormaliseTag(tags[i]) == tags[i] {
      ToLowerNoSep(pieces[i]);
      assert NoSpace(tags[i]);
      TrimNoSpace(tags[i]);
      ToLowerSpec(tags[i]);
      TipsCreate.NormaliseTagSpec(tags[i]);
      TrimNoSpace(tags[i]);
    }
  }

  /** `toggleLevel(n)`: removes `n` when present, appends it otherwise. */
  function ToggleLevel(levels: seq<int>, n: int): (r: seq<int>)
    ensures n in r <==> n !in levels
    ensures forall m :: m != n ==> (m in r <==> m in levels)
  {
    if n in levels then Without(levels, n) else levels + [n]
  }

  /** `filter(x => x !== n)`. */
  function Without(s: seq<int>, n: int): (r: seq<int>)
    ensures forall m :: m in r <==> m in s && m != n
    ensures n !in s ==> r == s
    decreases |s|
  {
    if |s| == 0 then []
    else
      assert s == [s[0]] + s[1..];
      (if s[0] == n then [] else [s[0]]) + Without(s[1..], n)
  }

  /** Toggling a level twice restores the selection: the same levels, and
      the very same list when `n` was not selected. */
  lemma ToggleTwice(levels: seq<int>, n: int)
    ensures forall m :: m in ToggleLevel(ToggleLevel(levels, n), n) <==> m in levels
    ensures n !in levels ==> ToggleLevel(ToggleLevel(levels, n), n) == levels
  {
    if n !in levels {
      WithoutAppended(levels, n);
    }
  }

  lemma {:induction false} WithoutAppended(s: seq<int>, n: int)
    requires n !in s
    ensures Without(s + [n], n) == s
    decreases |s|
  {
    if |s| == 0 {
      assert Without([n], n) == [] + Without([], n);
    } else {
      assert (s + [n])[1..] == s[1..] + [n];
      WithoutAppended(s[1..], n);
    }
  }

  /** The form's fields. `weight` is the number input's value. */
  datatype TipForm = TipForm(
    title: string, body: string, isAi: bool, weight: Num, isActive: bool,
    startAt: string, endAt: string, levels: seq<int>, extIdsText: string, tagsText: string)

  const MissingFields := "Título y cuerpo son obligatorios."

  /** The message of the `RangeError` that `toISOString` throws on a date
      that does not parse. */
  const InvalidTime := "Invalid time value"

  /** `startAt ? new Date(startAt).toISOString() : null`. The date parser is
      the parameter `toIso`; `None` is a date it cannot read. */
  function IsoOrNull(text: string, toIso: string -> Option<string>): Option<Option<string>> {
    if text == "" then Some(None)
    else if toIso(text).None? then None
    else Some(toIso(text))
  }

  /** The payload sent to the create handler, or the message the form shows:
      the missing-field message before anything else, then the error thrown
      while a date field is converted. */
  function Submit(form: TipForm, toIso: string -> Option<string>): (r: Reply<TipsCreate.TipPayload>)
    ensures r.Refused? <==>
      Trim(form.title) == "" || Trim(form.body) == "" ||
      (form.startAt != "" && toIso(form.startAt).None?) ||
      (form.endAt != "" && toIso(form.endAt).None?)
    ensures Trim(form.title) == "" || Trim(form.body) == "" ==> r == Refused(400, MissingFields)
    ensures r.Refused? && Trim(form.title) != "" && Trim(form.body) != "" ==> r.message == InvalidTime
    ensures r.Answered? ==>
      var p := r.body;
      && p.title == Trim(form.title) && p.title != ""
      && p.body == Trim(form.body) && p.body != ""
      && p.isAi == Some(form.isAi) && p.isActive == Some(form.isActive)
      && p.weight.Some? && p.weight.value.Fin?
      && p.weight.value.n == (if form.weight.Truthy() then form.weight.n else 1)
      && (p.startAt.Some? <==> form.startAt != "")
      && (p.startAt.Some? ==> Some(p.startAt.value) == toIso(form.startAt))
      && (p.endAt.Some? <==> form.endAt != "")
      && (p.endAt.Some? ==> Some(p.endAt.value) == toIso(form.endAt))
      && p.targets == Some(TipsCreate.Targets(
           LevelNums(form.levels), SplitCsv(form.extIdsText), ClientTags(form.tagsText)))
  {
    if Trim(form.title) == "" || Trim(form.body) == "" then Refused(400, MissingFields)
    else
      var start := IsoOrNull(form.startAt, toIso);
      var end := IsoOrNull(form.endAt, toIso);
      if start.None? || end.None? then Refused(400, InvalidTime)
      else
        Answered(TipsCreate.TipPayload(
          Trim(form.title), Trim(form.body), Some(form.isAi),
          Some(Fin(if form.weight.Truthy() then form.weight.n else 1)),
          Some(form.isActive), start.value, end.value,
          Some(TipsCreate.Targets(LevelNums(form.levels), SplitCsv(form.extIdsText), ClientTags(form.tagsText)))))
  }

  function LevelNums(levels: seq<int>): (r: seq<Num>)
    ensures |r| == |levels|
    ensures forall i :: 0 <= i < |r| ==> r[i] == Fin(levels[i])
  {
    seq(|levels|, i requires 0 <= i < |levels| => Fin(levels[i]))
  }

  /** A payload the form accepts passes the create handler's own title and
      body check, and its levels all survive the finiteness filter. */
  lemma SubmittedPayloadPassesCreateChecks(form: TipForm, toIso: string -> Option<string>)
    requires Submit(form, toIso).Answered?
    ensures var p := Submit(form, toIso).body;
      p.title != "" && p.body != "" &&
      TipsCreate.FiniteLevels(p.targets.value.levels) == form.levels
  {
    var p := Submit(form, toIso).body;
    FiniteLevelsOfInts(form.levels);
  }

  lemma {:induction false} FiniteLevelsOfInts(levels: seq<int>)
    ensures TipsCreate.FiniteLevels(LevelNums(levels)) == levels
    decreases |levels|
  {
    if |levels| > 0 {
      FiniteLevelsOfInts(levels[1..]);
      assert LevelNums(levels)[1..] == LevelNums(levels[1..]);
    }
  }
}
