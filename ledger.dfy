/**
  The ledger `tradingData`: one record per date key, and the two updates
  the edit session makes to it.
*/
module Ledger {
  import opened Wrappers

  /** `{ pl, trades }`: profit/loss in cents and the number of trades. */
  datatype Record = Record(pl: int, trades: int)

  type Data = map<string, Record>

  /** `tradingData[key] || { pl: 0, trades: 0 }`. */
  function RecordAt(data: Data, key: string): Record {
    if key in data then data[key] else Record(0, 0)
  }

  /** The ledger change of `saveTradeData`: while editing a record whose
      date was changed, the record under the original key is dropped; then
      the new record is stored under `date`. `editing` is the original key
      of the edit session, `None` outside edit mode. */
  function SaveEntry(data: Data, editing: Option<string>, date: string, rec: Record): (r: Data)
    ensures date in r && r[date] == rec
    ensures editing.Some? && editing.value != date ==> editing.value !in r
    ensures forall k :: k != date && editing != Some(k) ==>
      (k in r <==> k in data) && (k in r ==> r[k] == data[k])
    ensures r.Keys <= data.Keys + {date}
  {
    var base := if editing.Some? && editing.value != date then data - {editing.value} else data;
    base[date := rec]
  }

  /** `delete tradingData[key]`: drop one key, keep every other record. */
  function DeleteEntry(data: Data, key: string): (r: Data)
    ensures key !in r
    ensures forall k :: k != key ==> (k in r <==> k in data) && (k in r ==> r[k] == data[k])
  {
    data - {key}
  }

  /** Moving a record to a free date replaces it: the ledger keeps its
      size, the old key is gone and exactly the new one is added. */
  lemma MoveKeepsCount(data: Data, original: string, date: string, rec: Record)
    requires original in data && date !in data && original != date
    ensures var r := SaveEntry(data, Some(original), date, rec);
      |r| == |data| && r.Keys == data.Keys - {original} + {date}
  {
    var r := SaveEntry(data, Some(original), date, rec);
    var base := data - {original};
    assert base.Keys == data.Keys - {original};
    assert |base.Keys| == |data.Keys| - 1;
    assert r.Keys == base.Keys + {date};
    assert |r.Keys| == |base.Keys| + 1;
  }

  /** Saving over an existing date while not editing, or while editing that
      same date, overwrites in place. */
  lemma OverwriteKeepsCount(data: Data, editing: Option<string>, date: string, rec: Record)
    requires date in data && (editing.None? || editing == Some(date))
    ensures var r := SaveEntry(data, editing, date, rec); r.Keys == data.Keys && |r| == |data|
  {
    var r := SaveEntry(data, editing, date, rec);
    assert r.Keys == data.Keys;
  }

  /** Deleting an absent key changes nothing. */
  lemma DeleteAbsent(data: Data, key: string)
    requires key !in data
    ensures DeleteEntry(data, key) == data
  {
  }
}
