/**
 * Raw rows as the CSV and spreadsheet readers hand them to an adapter, the
 * key/value normalisation both adapters start with, and the ordered alias lookup
 * `row['a'] || row['b'] || ... || ''` they resolve every field with.
 */
module RawRows {
  import opened Wrappers
  import opened JsText

  /** A cell: `null`/`undefined`, or the text `String(value)` gives for it. */
  datatype Cell = Missing | Text(text: string)

  /** A row's properties in the order `Object.entries` lists them. */
  type RawRow = seq<(string, Cell)>

  /** The normalized record: normalized header to normalized value. */
  type Record = map<string, string>

  /** `key.toLowerCase().trim()`. */
  function NormalizeKey(key: string): string
  {
    Trim(Lower(key))
  }

  /** A header whose lower-cased form `k` has no whitespace at either end normalizes to `k`. */
  lemma KeyOfLowered(h: string, k: string)
    requires Lower(h) == k && IsTrimmed(k)
    ensures NormalizeKey(h) == k
  {
    TrimOfTrimmed(k);
  }

  /** `String(value ?? '').trim()`. */
  function NormalizeValue(cell: Cell): string
  {
    match cell
    case Missing => ""
    case Text(t) => Trim(t)
  }

  /** A cell whose text has no whitespace at either end keeps that text. */
  lemma TrimmedCell(t: string)
    requires IsTrimmed(t)
    ensures NormalizeValue(Text(t)) == t
  {
    TrimOfTrimmed(t);
  }

  /**
   * The record a loop over the entries builds when it stores `value(cell)` under
   * `key(header)`: entries in order, a later key overwriting an earlier one.
   */
  function NormalizedBy(row: RawRow, key: string -> string, value: Cell -> string): Record
  {
    if row == [] then map[]
    else NormalizedBy(row[..|row| - 1], key, value)[key(row[|row| - 1].0) := value(row[|row| - 1].1)]
  }

  /** The record both adapters build from a raw row: every key and every value in it is trimmed. */
  function Normalized(row: RawRow): (r: Record)
    ensures IsTrimmedRecord(r)
  {
    NormalizersTrim();
    NormalizedByTrimmed(row, NormalizeKey, NormalizeValue);
    NormalizedBy(row, NormalizeKey, NormalizeValue)
  }

  /** One more entry overwrites (or adds) its own key. */
  lemma NormalizedStep(row: RawRow, i: nat, key: string -> string, value: Cell -> string)
    requires i < |row|
    ensures NormalizedBy(row[..i + 1], key, value) == NormalizedBy(row[..i], key, value)[key(row[i].0) := value(row[i].1)]
  {
    assert row[..i + 1][..i] == row[..i];
  }

  /** The loop at the start of `parseRow`, shared by both adapters. */
  method NormalizeRow(row: RawRow) returns (normalized: Record)
    ensures normalized == Normalized(row)
  {
    normalized := map[];
    var i := 0;
    while i < |row|
      invariant 0 <= i <= |row|
      invariant normalized == NormalizedBy(row[..i], NormalizeKey, NormalizeValue)
    {
      var (key, value) := row[i];
      NormalizedStep(row, i, NormalizeKey, NormalizeValue);
      normalized := normalized[NormalizeKey(key) := NormalizeValue(value)];
      i := i + 1;
    }
    assert row[..|row|] == row;
  }

  /** Entry `i` of the row has key `k` once normalized by `key`. */
  predicate KeyAt(row: RawRow, key: string -> string, i: int, k: string)
  {
    0 <= i < |row| && key(row[i].0) == k
  }

  /** The record has exactly the normalized keys of the row. */
  lemma {:induction false} NormalizedByKeys(row: RawRow, key: string -> string, value: Cell -> string, k: string)
    ensures k in NormalizedBy(row, key, value) <==> exists i :: KeyAt(row, key, i, k)
  {
    if row != [] {
      var init := row[..|row| - 1];
      var last := |row| - 1;
      NormalizedByKeys(init, key, value, k);
      assert NormalizedBy(row, key, value) == NormalizedBy(init, key, value)[key(row[last].0) := value(row[last].1)];
      if k == key(row[last].0) {
        assert KeyAt(row, key, last, k);
      } else if k in NormalizedBy(init, key, value) {
        var i :| KeyAt(init, key, i, k);
        assert KeyAt(row, key, i, k);
      } else {
        forall i | KeyAt(row, key, i, k)
          ensures false
        {
          assert KeyAt(init, key, i, k);
        }
      }
    }
  }

  /** A header appears in the record exactly when some entry's header normalizes to it. */
  lemma NormalizedKeys(row: RawRow, k: string)
    ensures k in Normalized(row) <==> exists i :: KeyAt(row, NormalizeKey, i, k)
  {
    NormalizedByKeys(row, NormalizeKey, NormalizeValue, k);
  }

  /** The value of a key is that of the last entry whose key normalizes to it. */
  lemma {:induction false} NormalizedByLastWins(row: RawRow, key: string -> string, value: Cell -> string, i: nat)
    requires i < |row|
    requires forall j :: i < j < |row| ==> key(row[j].0) != key(row[i].0)
    ensures key(row[i].0) in NormalizedBy(row, key, value)
    ensures NormalizedBy(row, key, value)[key(row[i].0)] == value(row[i].1)
  {
    if i < |row| - 1 {
      NormalizedByLastWins(row[..|row| - 1], key, value, i);
    }
  }

  lemma NormalizedLastWins(row: RawRow, i: nat)
    requires i < |row|
    requires forall j :: i < j < |row| ==> NormalizeKey(row[j].0) != NormalizeKey(row[i].0)
    ensures NormalizeKey(row[i].0) in Normalized(row)
    ensures Normalized(row)[NormalizeKey(row[i].0)] == NormalizeValue(row[i].1)
  {
    NormalizedByLastWins(row, NormalizeKey, NormalizeValue, i);
  }

  /** Every key and every value of the record is trimmed. */
  predicate IsTrimmedRecord(m: Record)
  {
    forall k :: k in m ==> IsTrimmed(k) && IsTrimmed(m[k])
  }

  lemma {:induction false} NormalizedByTrimmed(row: RawRow, key: string -> string, value: Cell -> string)
    requires forall h :: IsTrimmed(key(h))
    requires forall c :: IsTrimmed(value(c))
    ensures IsTrimmedRecord(NormalizedBy(row, key, value))
  {
    if row != [] {
      NormalizedByTrimmed(row[..|row| - 1], key, value);
    }
  }

  /** Both normalizations trim. */
  lemma NormalizersTrim()
    ensures forall h :: IsTrimmed(NormalizeKey(h))
    ensures forall c :: IsTrimmed(NormalizeValue(c))
  {
    forall h
      ensures IsTrimmed(NormalizeKey(h))
    {
      TrimProperties(Lower(h));
    }
    forall c
      ensures IsTrimmed(NormalizeValue(c))
    {
      if c.Text? {
        TrimProperties(c.text);
      }
    }
  }

  /**
   * `m[a1] || m[a2] || ... || ''`: the value of some alias that has a non-empty
   * one, and `''` exactly when none has.
   */
  function Lookup(m: Record, aliases: seq<string>): (r: string)
    ensures r == "" <==> forall i :: 0 <= i < |aliases| ==> !Hit(m, aliases[i])
    ensures r != "" ==> exists i :: 0 <= i < |aliases| && Hit(m, aliases[i]) && r == m[aliases[i]]
  {
    assert forall i :: 1 <= i < |aliases| ==> aliases[i] == aliases[1..][i - 1];
    if aliases == [] then ""
    else if aliases[0] in m && m[aliases[0]] != "" then m[aliases[0]]
    else Lookup(m, aliases[1..])
  }

  /** Alias `a` has a non-empty value in the record. */
  predicate Hit(m: Record, a: string)
  {
    a in m && m[a] != ""
  }

  /**
   * The lookup is the value of the first alias that hits, and empty when none
   * does: aliases before the winning one are absent or empty.
   */
  lemma {:induction false} LookupFirstHit(m: Record, aliases: seq<string>, j: nat)
    requires j < |aliases| && Hit(m, aliases[j])
    requires forall i :: 0 <= i < j ==> !Hit(m, aliases[i])
    ensures Lookup(m, aliases) == m[aliases[j]]
  {
    if j > 0 {
      LookupFirstHit(m, aliases[1..], j - 1);
    }
  }

  /** An alias that is absent from every record, or repeats an earlier alias, never changes the lookup. */
  lemma {:induction false} LookupSkips(m: Record, pre: seq<string>, a: string, post: seq<string>)
    requires !Hit(m, a) || a in pre
    ensures Lookup(m, pre + [a] + post) == Lookup(m, pre + post)
  {
    if pre == [] {
      assert [] + [a] + post == [a] + post;
      assert ([a] + post)[1..] == post;
      assert [] + post == post;
    } else {
      assert (pre + [a] + post)[1..] == pre[1..] + [a] + post;
      assert (pre + post)[1..] == pre[1..] + post;
      if !Hit(m, pre[0]) {
        LookupSkips(m, pre[1..], a, post);
      }
    }
  }

  /** The lookup's result is empty or trimmed, when the record's values are. */
  lemma {:induction false} LookupTrimmed(m: Record, aliases: seq<string>)
    requires IsTrimmedRecord(m)
    ensures IsTrimmed(Lookup(m, aliases))
  {
    if aliases != [] && !Hit(m, aliases[0]) {
      LookupTrimmed(m, aliases[1..]);
    }
  }

  /** A header with whitespace at either end never survives normalisation, so such an alias never hits. */
  lemma UntrimmedAliasNeverHits(row: RawRow, a: string)
    requires !IsTrimmed(a)
    ensures a !in Normalized(row)
  {
  }

  /** Every value of the record is `v` when every cell normalizes to `v`. */
  lemma {:induction false} NormalizedByValues(row: RawRow, key: string -> string, value: Cell -> string, v: string)
    requires forall j :: 0 <= j < |row| ==> value(row[j].1) == v
    ensures forall k :: k in NormalizedBy(row, key, value) ==> NormalizedBy(row, key, value)[k] == v
  {
    if row != [] {
      NormalizedByValues(row[..|row| - 1], key, value, v);
    }
  }

  /** A row whose cells are all missing or blank looks up nothing, whatever the aliases. */
  lemma BlankRowLooksUpNothing(row: RawRow, aliases: seq<string>)
    requires forall j :: 0 <= j < |row| ==> NormalizeValue(row[j].1) == ""
    ensures Lookup(Normalized(row), aliases) == ""
  {
    NormalizedByValues(row, NormalizeKey, NormalizeValue, "");
  }

  /** No column other than `c` has a header that normalizes to one of `aliases` (`c` may be no column at all). */
  predicate SoleColumn(row: RawRow, aliases: seq<string>, c: int)
  {
    forall j :: 0 <= j < |row| && j != c ==> NormalizeKey(row[j].0) !in aliases
  }

  /** The normalized text of column `c` when its header is one of `aliases`, and `''` otherwise. */
  function ColumnText(row: RawRow, aliases: seq<string>, c: int): string
  {
    if 0 <= c < |row| && NormalizeKey(row[c].0) in aliases then NormalizeValue(row[c].1) else ""
  }

  /** When only key `k` of the aliases can be in the record, the lookup is its value, or `''`. */
  lemma {:induction false} LookupOneKey(m: Record, aliases: seq<string>, k: string)
    requires forall a :: a in aliases && a != k ==> a !in m
    ensures Lookup(m, aliases) == if k in aliases && k in m then m[k] else ""
  {
    if aliases != [] {
      assert forall a :: a in aliases[1..] ==> a in aliases;
      LookupOneKey(m, aliases[1..], k);
    }
  }

  /**
   * When at most one column of a raw row has a header that normalizes to one of the
   * aliases, the lookup gives that column's trimmed text, and `''` when there is none.
   */
  lemma SoleColumnLookup(row: RawRow, aliases: seq<string>, c: int)
    requires SoleColumn(row, aliases, c)
    ensures Lookup(Normalized(row), aliases) == ColumnText(row, aliases, c)
  {
    var m := Normalized(row);
    if 0 <= c < |row| && NormalizeKey(row[c].0) in aliases {
      var k := NormalizeKey(row[c].0);
      NormalizedLastWins(row, c);
      forall a | a in aliases && a != k
        ensures a !in m
      {
        NormalizedKeys(row, a);
      }
      LookupOneKey(m, aliases, k);
    } else {
      forall a | a in aliases
        ensures a !in m
      {
        NormalizedKeys(row, a);
      }
    }
  }

  /**
   * `SoleColumn` from the row's normalized headers `keys`, read through `key`, which
   * is the key normalization under another name (this keeps rows of literal headers cheap).
   */
  lemma SoleColumnOfKeys(row: RawRow, key: string -> string, keys: seq<string>, aliases: seq<string>, c: int)
    requires forall h :: key(h) == NormalizeKey(h)
    requires |keys| == |row| && forall j :: 0 <= j < |row| ==> key(row[j].0) == keys[j]
    requires forall j :: 0 <= j < |keys| && j != c ==> keys[j] !in aliases
    ensures SoleColumn(row, aliases, c)
  {
  }

  /** Column `c`, headed `h` with key `k` among the aliases, holds the trimmed text `t`. */
  lemma ColumnTextOf(row: RawRow, aliases: seq<string>, c: int, h: string, k: string, t: string)
    requires 0 <= c < |row| && row[c] == (h, Text(t))
    requires NormalizeKey(h) == k && k in aliases && IsTrimmed(t)
    ensures ColumnText(row, aliases, c) == t
  {
    TrimmedCell(t);
  }

  // ------------------------------------------- what both adapters derive

  /** `text || undefined`. */
  function OrUndefined(text: string): Option<string>
  {
    if text == "" then None else Some(text)
  }

  /** The code given to a row without one: `UNKNOWN-${rowIndex}`. */
  function UnknownSku(rowIndex: nat): (r: string)
    ensures r != [] && !IsWhitespace(r[0])
  {
    "UNKNOWN-" + NatToString(rowIndex)
  }

  /** Different rows get different placeholder codes. */
  lemma UnknownSkuInjective(a: nat, b: nat)
    requires UnknownSku(a) == UnknownSku(b)
    ensures a == b
  {
    assert UnknownSku(a)[8..] == NatToString(a);
    assert UnknownSku(b)[8..] == NatToString(b);
    NatToStringInjective(a, b);
  }

  /** The name given to a row without one. */
  const NoName: string := "Sin nombre"

}
