/**
 * `detectProvider`: guesses the supplier from a file's header row by counting how
 * many of each supplier's indicator words occur in the normalized headers. Three
 * Motos y Equipos indicators win first; otherwise three MRM indicators; otherwise
 * no guess.
 */
module ProviderDetection {
  import opened Wrappers
  import opened JsText
  import opened StagedItems
  import opened RawRows

  const MotosIndicators: seq<string> := ["cod. com", "descrip.", "marca", "almacen", "disp.", "precio."]

  /**
   * The MRM indicators as the source spells them: `código`, `descripción` and `línea`
   * appear as their UTF-8 bytes read as Latin-1 (`Ã` followed by `³` or a soft hyphen).
   */
  const MrmIndicators: seq<string> :=
    ["c\U{C3}\U{B3}digo", "descripci\U{C3}\U{B3}n", "moto", "modelo", "unidad", "l\U{C3}\U{AD}nea", "precio"]

  /** The MRM indicators with the accented words spelled correctly. */
  const IntendedMrmIndicators: seq<string> :=
    ["c\U{F3}digo", "descripci\U{F3}n", "moto", "modelo", "unidad", "l\U{ED}nea", "precio"]

  /** The MRM indicators that are plain ASCII in the source. */
  const PlainMrmIndicators: seq<string> := ["moto", "modelo", "unidad", "precio"]

  /** How many indicators must match. */
  const Threshold: nat := 3

  /** `xs.map(f)`. */
  function MapEach(xs: seq<string>, f: string -> string): (ys: seq<string>)
    ensures |ys| == |xs|
    ensures forall i :: 0 <= i < |xs| ==> ys[i] == f(xs[i])
  {
    if xs == [] then [] else [f(xs[0])] + MapEach(xs[1..], f)
  }

  /** `headers.map(h => h.toLowerCase().trim())`: the same normalisation the adapters apply to keys. */
  function NormalizeHeaders(headers: seq<string>): seq<string>
  {
    MapEach(headers, NormalizeKey)
  }

  /** `hs.some(h => h.includes(sub))`. */
  function AnyContains(hs: seq<string>, sub: string): bool
  {
    hs != [] && (Contains(hs[0], sub) || AnyContains(hs[1..], sub))
  }

  /** `indicators.filter(ind => hs.some(h => h.includes(ind.toLowerCase())))`. */
  function Matches(hs: seq<string>, indicators: seq<string>): seq<string>
  {
    if indicators == [] then []
    else
      var rest := Matches(hs, indicators[1..]);
      if AnyContains(hs, Lower(indicators[0])) then [indicators[0]] + rest else rest
  }

  /** The positions of the indicators that occur, lower-cased, in some header. */
  function HitPositions(hs: seq<string>, indicators: seq<string>): set<int>
  {
    set i | 0 <= i < |indicators| && AnyContains(hs, Lower(indicators[i]))
  }

  /**
   * The decision on normalized headers, given each supplier's indicators: Motos y
   * Equipos when at least three of its indicators occur in the headers, otherwise
   * MRM when at least three of its own do, otherwise no supplier.
   */
  function DetectAmong(hs: seq<string>, motosIndicators: seq<string>, mrmIndicators: seq<string>): (r: Option<ProviderCode>)
    ensures r == Some(MotosYEquipos) <==> |HitPositions(hs, motosIndicators)| >= Threshold
    ensures r == Some(Mrm) <==> |HitPositions(hs, motosIndicators)| < Threshold && |HitPositions(hs, mrmIndicators)| >= Threshold
    ensures r.None? <==> |HitPositions(hs, motosIndicators)| < Threshold && |HitPositions(hs, mrmIndicators)| < Threshold
  {
    MatchesCountHits(hs, motosIndicators);
    MatchesCountHits(hs, mrmIndicators);
    if |Matches(hs, motosIndicators)| >= Threshold then Some(MotosYEquipos)
    else if |Matches(hs, mrmIndicators)| >= Threshold then Some(Mrm)
    else None
  }

  /** `detectProvider` as written. */
  function DetectProvider(headers: seq<string>): (r: Option<ProviderCode>)
    ensures r == Some(MotosYEquipos) <==> |HitPositions(NormalizeHeaders(headers), MotosIndicators)| >= Threshold
    ensures r == Some(Mrm) <==>
      |HitPositions(NormalizeHeaders(headers), MotosIndicators)| < Threshold &&
      |HitPositions(NormalizeHeaders(headers), MrmIndicators)| >= Threshold
  {
    DetectAmong(NormalizeHeaders(headers), MotosIndicators, MrmIndicators)
  }

  /** `detectProvider` with the MRM indicators spelled as intended. */
  function DetectProviderIntended(headers: seq<string>): (r: Option<ProviderCode>)
    ensures r == Some(MotosYEquipos) <==> |HitPositions(NormalizeHeaders(headers), MotosIndicators)| >= Threshold
    ensures r == Some(Mrm) <==>
      |HitPositions(NormalizeHeaders(headers), MotosIndicators)| < Threshold &&
      |HitPositions(NormalizeHeaders(headers), IntendedMrmIndicators)| >= Threshold
  {
    DetectAmong(NormalizeHeaders(headers), MotosIndicators, IntendedMrmIndicators)
  }

  /** The filter keeps one entry per indicator position that occurs in the headers. */
  lemma MatchesCountHits(hs: seq<string>, indicators: seq<string>)
    ensures |Matches(hs, indicators)| == |HitPositions(hs, indicators)|
  {
    MatchesCountHitsFrom(hs, indicators, 0);
    assert indicators[0..] == indicators;
    assert HitPositions(hs, indicators) == HitsFrom(hs, indicators, 0);
  }

  /** The positions from `from` on of the indicators that occur in some header. */
  function HitsFrom(hs: seq<string>, indicators: seq<string>, from: nat): set<int>
  {
    set i | from <= i < |indicators| && AnyContains(hs, Lower(indicators[i]))
  }

  lemma {:induction false} MatchesCountHitsFrom(hs: seq<string>, indicators: seq<string>, from: nat)
    requires from <= |indicators|
    ensures |Matches(hs, indicators[from..])| == |HitsFrom(hs, indicators, from)|
    decreases |indicators| - from
  {
    if from == |indicators| {
      assert HitsFrom(hs, indicators, from) == {};
    } else {
      MatchesCountHitsFrom(hs, indicators, from + 1);
      assert indicators[from..][0] == indicators[from];
      assert indicators[from..][1..] == indicators[from + 1..];
      if AnyContains(hs, Lower(indicators[from])) {
        assert HitsFrom(hs, indicators, from) == {from} + HitsFrom(hs, indicators, from + 1);
      } else {
        assert HitsFrom(hs, indicators, from) == HitsFrom(hs, indicators, from + 1);
      }
    }
  }

  // ------------------------------------------------------------ properties

  /** `some` holds exactly when one of the headers contains the text. */
  lemma {:induction false} AnyContainsIff(hs: seq<string>, sub: string)
    ensures AnyContains(hs, sub) <==> exists i :: 0 <= i < |hs| && Contains(hs[i], sub)
  {
    if hs != [] {
      AnyContainsIff(hs[1..], sub);
      assert forall i :: 1 <= i < |hs| ==> hs[i] == hs[1..][i - 1];
      if Contains(hs[0], sub) {
        assert 0 < |hs| && Contains(hs[0], sub);
      }
    }
  }

  /** An indicator is counted exactly when it is listed and some header contains it, lower-cased. */
  lemma {:induction false} MatchesIff(hs: seq<string>, indicators: seq<string>, x: string)
    ensures x in Matches(hs, indicators) <==> x in indicators && AnyContains(hs, Lower(x))
  {
    if indicators != [] {
      MatchesIff(hs, indicators[1..], x);
      assert indicators == [indicators[0]] + indicators[1..];
    }
  }

  /** The count never exceeds the number of indicators. */
  lemma {:induction false} MatchesBound(hs: seq<string>, indicators: seq<string>)
    ensures |Matches(hs, indicators)| <= |indicators|
  {
    if indicators != [] {
      MatchesBound(hs, indicators[1..]);
    }
  }

  /** Headers that contain the same indicators give the same count. */
  lemma {:induction false} MatchesDependOnlyOnPresence(hs1: seq<string>, hs2: seq<string>, indicators: seq<string>)
    requires forall i :: 0 <= i < |indicators| ==> AnyContains(hs1, Lower(indicators[i])) == AnyContains(hs2, Lower(indicators[i]))
    ensures Matches(hs1, indicators) == Matches(hs2, indicators)
  {
    if indicators != [] {
      assert forall i :: 1 <= i < |indicators| ==> indicators[i] == indicators[1..][i - 1];
      MatchesDependOnlyOnPresence(hs1, hs2, indicators[1..]);
    }
  }

  /** Two header lists with the same members contain the same texts. */
  lemma SameMembersSameSome(hs1: seq<string>, hs2: seq<string>, sub: string)
    requires forall h :: h in hs1 <==> h in hs2
    ensures AnyContains(hs1, sub) == AnyContains(hs2, sub)
  {
    AnyContainsIff(hs1, sub);
    AnyContainsIff(hs2, sub);
    if AnyContains(hs1, sub) {
      var i :| 0 <= i < |hs1| && Contains(hs1[i], sub);
      assert hs1[i] in hs2;
    }
    if AnyContains(hs2, sub) {
      var i :| 0 <= i < |hs2| && Contains(hs2[i], sub);
      assert hs2[i] in hs1;
    }
  }

  /** Two header lists with the same members count the same indicators. */
  lemma SameMembersSameMatches(hs1: seq<string>, hs2: seq<string>, indicators: seq<string>)
    requires forall h :: h in hs1 <==> h in hs2
    ensures Matches(hs1, indicators) == Matches(hs2, indicators)
  {
    forall i | 0 <= i < |indicators|
      ensures AnyContains(hs1, Lower(indicators[i])) == AnyContains(hs2, Lower(indicators[i]))
    {
      SameMembersSameSome(hs1, hs2, Lower(indicators[i]));
    }
    MatchesDependOnlyOnPresence(hs1, hs2, indicators);
  }

  /** The order of the headers, and repeated headers, do not change the guess. */
  lemma HeaderOrderIrrelevant(hs1: seq<string>, hs2: seq<string>, motosIndicators: seq<string>, mrmIndicators: seq<string>)
    requires forall h :: h in hs1 <==> h in hs2
    ensures DetectAmong(hs1, motosIndicators, mrmIndicators) == DetectAmong(hs2, motosIndicators, mrmIndicators)
  {
    SameMembersSameMatches(hs1, hs2, motosIndicators);
    SameMembersSameMatches(hs1, hs2, mrmIndicators);
  }

  /** Normalizing one header twice is normalizing it once. */
  lemma NormalizeHeaderIdempotent(h: string)
    ensures NormalizeKey(NormalizeKey(h)) == NormalizeKey(h)
  {
    var t := Trim(Lower(h));
    TrimLowerCommute(t);
    TrimProperties(Lower(h));
    TrimLowerCommute(Lower(h));
    LowerIdempotent(h);
  }

  /** Already-normalized headers are left as they are, so detection is unchanged by normalizing first. */
  lemma NormalizeHeadersIdempotent(headers: seq<string>)
    ensures NormalizeHeaders(NormalizeHeaders(headers)) == NormalizeHeaders(headers)
  {
    forall i | 0 <= i < |headers|
      ensures NormalizeKey(NormalizeKey(headers[i])) == NormalizeKey(headers[i])
    {
      NormalizeHeaderIdempotent(headers[i]);
    }
  }

  lemma DetectIgnoresRenormalizing(headers: seq<string>)
    ensures DetectProvider(NormalizeHeaders(headers)) == DetectProvider(headers)
  {
    NormalizeHeadersIdempotent(headers);
  }

  /** A text that lacks one character of `sub` does not contain `sub`. */
  lemma {:induction false} MissingCharNotContained(s: string, sub: string, j: nat)
    requires j < |sub|
    requires forall i :: 0 <= i < |s| ==> s[i] != sub[j]
    ensures !Contains(s, sub)
  {
    if |s| >= |sub| {
      assert s[j] != sub[j];
      MissingCharNotContained(s[1..], sub, j);
    }
  }

  /** No header contains the character `c`. */
  predicate Lacks(hs: seq<string>, c: char)
  {
    forall k, i :: 0 <= k < |hs| && 0 <= i < |hs[k]| ==> hs[k][i] != c
  }

  lemma {:induction false} LacksNotContained(hs: seq<string>, sub: string, j: nat)
    requires j < |sub| && Lacks(hs, sub[j])
    ensures !AnyContains(hs, sub)
  {
    if hs != [] {
      MissingCharNotContained(hs[0], sub, j);
      assert forall k :: 1 <= k < |hs| ==> hs[1..][k - 1] == hs[k];
      LacksNotContained(hs[1..], sub, j);
    }
  }

  /** An indicator no header contains can be struck from the list without changing the count. */
  lemma {:induction false} MatchesSkip(hs: seq<string>, pre: seq<string>, x: string, post: seq<string>)
    requires !AnyContains(hs, Lower(x))
    ensures Matches(hs, pre + [x] + post) == Matches(hs, pre + post)
  {
    if pre == [] {
      assert [] + [x] + post == [x] + post;
      assert ([x] + post)[1..] == post;
      assert [] + post == post;
    } else {
      assert (pre + [x] + post)[1..] == pre[1..] + [x] + post;
      assert (pre + post)[1..] == pre[1..] + post;
      assert (pre + [x] + post)[0] == pre[0] == (pre + post)[0];
      MatchesSkip(hs, pre[1..], x, post);
    }
  }

  /**
   * An indicator with a character that lower-casing leaves alone and that no header
   * contains is never matched.
   */
  lemma UnmatchedIndicator(hs: seq<string>, x: string, k: nat)
    requires k < |x| && LowerChar(x[k]) == x[k] && Lacks(hs, x[k])
    ensures !AnyContains(hs, Lower(x))
  {
    LacksNotContained(hs, Lower(x), k);
  }

  /** Three unmatched indicators around a list can be struck from it. */
  lemma StrikeUnmatched(hs: seq<string>, c: string, d: string, rest: seq<string>, l: string, p: string)
    requires !AnyContains(hs, Lower(c)) && !AnyContains(hs, Lower(d)) && !AnyContains(hs, Lower(l))
    ensures Matches(hs, [c, d] + rest + [l, p]) == Matches(hs, rest + [p])
  {
    var tail := rest + [l, p];
    assert [c, d] + rest + [l, p] == [c] + ([d] + tail);
    assert ([c] + ([d] + tail))[1..] == [d] + tail;
    assert ([d] + tail)[1..] == tail;
    MatchesSkip(hs, rest, l, [p]);
    assert rest + [l] + [p] == rest + [l, p];
  }

  /** The MRM list as written: the three misspelled indicators around the plain ones. */
  lemma MrmIndicatorsLayout()
    ensures |MrmIndicators[0]| > 2 && MrmIndicators[0][2] == '\U{B3}'
    ensures |MrmIndicators[1]| > 10 && MrmIndicators[1][10] == '\U{B3}'
    ensures |MrmIndicators[5]| > 2 && MrmIndicators[5][2] == '\U{AD}'
    ensures MrmIndicators == [MrmIndicators[0], MrmIndicators[1]] + PlainMrmIndicators[..3] + [MrmIndicators[5], PlainMrmIndicators[3]]
  {
  }

  /**
   * A list that is `plain` with three indicators slipped in, each holding a character
   * no header contains, counts what `plain` counts.
   */
  lemma MisspelledNeverCount(hs: seq<string>, inds: seq<string>, plain: seq<string>)
    requires |plain| == 4 && |inds| == 7
    requires inds == [inds[0], inds[1]] + plain[..3] + [inds[5], plain[3]]
    requires |inds[0]| > 2 && LowerChar(inds[0][2]) == inds[0][2] && Lacks(hs, inds[0][2])
    requires |inds[1]| > 10 && LowerChar(inds[1][10]) == inds[1][10] && Lacks(hs, inds[1][10])
    requires |inds[5]| > 2 && LowerChar(inds[5][2]) == inds[5][2] && Lacks(hs, inds[5][2])
    ensures Matches(hs, inds) == Matches(hs, plain)
  {
    UnmatchedIndicator(hs, inds[0], 2);
    UnmatchedIndicator(hs, inds[1], 10);
    UnmatchedIndicator(hs, inds[5], 2);
    StrikeUnmatched(hs, inds[0], inds[1], plain[..3], inds[5], plain[3]);
    assert plain[..3] + [plain[3]] == plain;
  }

  /**
   * Headers without the characters `³` and soft hyphen, which is every correctly
   * decoded Spanish header, never match the three misspelled indicators: as
   * written, MRM is recognised through `moto`, `modelo`, `unidad` and `precio` only.
   */
  lemma MrmIndicatorsAsWritten(hs: seq<string>)
    requires Lacks(hs, '\U{B3}') && Lacks(hs, '\U{AD}')
    ensures Matches(hs, MrmIndicators) == Matches(hs, PlainMrmIndicators)
  {
    MrmIndicatorsLayout();
    MisspelledNeverCount(hs, MrmIndicators, PlainMrmIndicators);
  }

  // ------------------------------------- the misspelled indicators, against the intended ones

  /** Dropping indicators from the front never raises the count. */
  lemma {:induction false} MatchesOfSuffix(hs: seq<string>, indicators: seq<string>, m: nat)
    requires m <= |indicators|
    ensures |Matches(hs, indicators[m..])| <= |Matches(hs, indicators)|
  {
    if m > 0 {
      assert indicators[m..] == indicators[1..][m - 1..];
      MatchesOfSuffix(hs, indicators[1..], m - 1);
    }
  }

  /** A matched indicator adds one to the count. */
  lemma MatchesHit(hs: seq<string>, indicators: seq<string>, i: nat)
    requires i < |indicators| && AnyContains(hs, Lower(indicators[i]))
    ensures |Matches(hs, indicators[i..])| == 1 + |Matches(hs, indicators[i + 1..])|
  {
    assert indicators[i..][0] == indicators[i];
    assert indicators[i..][1..] == indicators[i + 1..];
  }

  /** A list of headers that includes `x` contains `x`. */
  lemma {:induction false} AnyContainsMember(hs: seq<string>, k: nat)
    requires k < |hs|
    ensures AnyContains(hs, hs[k])
  {
    if k == 0 {
      assert hs[0][..|hs[0]|] == hs[0];
    } else {
      assert hs[1..][k - 1] == hs[k];
      AnyContainsMember(hs[1..], k - 1);
    }
  }

  /**
   * As written, a file whose headers are correctly decoded (no `³`, no soft hyphen)
   * and name at most two of `moto`, `modelo`, `unidad` and `precio` is never taken
   * for MRM, however many of `código`, `descripción` and `línea` it has. With the
   * headers `Código`, `Descripción` and `Línea` the guess is no supplier.
   */
  lemma AsWrittenMissesAccentedHeaders(headers: seq<string>)
    requires Lacks(NormalizeHeaders(headers), '\U{B3}') && Lacks(NormalizeHeaders(headers), '\U{AD}')
    requires |Matches(NormalizeHeaders(headers), PlainMrmIndicators)| < Threshold
    ensures DetectProvider(headers) != Some(Mrm)
  {
    MrmIndicatorsAsWritten(NormalizeHeaders(headers));
  }

  /** A header list that includes `h` contains `h`. */
  lemma MemberContained(hs: seq<string>, h: string)
    requires h in hs
    ensures AnyContains(hs, h)
  {
    var k :| 0 <= k < |hs| && hs[k] == h;
    AnyContainsMember(hs, k);
  }

  /**
   * With the indicators spelled as intended, headers that include `código`,
   * `descripción` and `línea` once normalized (`Código`, `Descripción` and
   * `Línea`, say) are recognised as MRM unless they already look like a Motos y
   * Equipos file.
   */
  lemma IntendedFindsAccentedHeaders(headers: seq<string>)
    requires |Matches(NormalizeHeaders(headers), MotosIndicators)| < Threshold
    requires Lower(IntendedMrmIndicators[0]) in NormalizeHeaders(headers)
    requires Lower(IntendedMrmIndicators[1]) in NormalizeHeaders(headers)
    requires Lower(IntendedMrmIndicators[5]) in NormalizeHeaders(headers)
    ensures DetectProviderIntended(headers) == Some(Mrm)
  {
    ThreeHitsDetectMrm(NormalizeHeaders(headers), MotosIndicators, IntendedMrmIndicators);
  }

  /** Headers holding the first, second and sixth MRM indicators reach the MRM threshold. */
  lemma ThreeHitsDetectMrm(hs: seq<string>, motosIndicators: seq<string>, inds: seq<string>)
    requires |inds| > 5
    requires |Matches(hs, motosIndicators)| < Threshold
    requires Lower(inds[0]) in hs && Lower(inds[1]) in hs && Lower(inds[5]) in hs
    ensures DetectAmong(hs, motosIndicators, inds) == Some(Mrm)
  {
    MemberContained(hs, Lower(inds[0]));
    MemberContained(hs, Lower(inds[1]));
    MemberContained(hs, Lower(inds[5]));
    MatchesHit(hs, inds, 0);
    MatchesHit(hs, inds, 1);
    MatchesOfSuffix(hs, inds[2..], 3);
    assert inds[2..][3..] == inds[5..];
    MatchesHit(hs, inds, 5);
    assert inds[0..] == inds;
    assert |Matches(hs, inds)| >= Threshold;
  }

}
