/** The advanced filter panel of the client tables: a map from field names to
    filter values, each field typed by a configuration as a text, select, date
    or amount filter, applied conjunctively to the table's records. */
module AdvancedFilters {
  import opened Maybe
  import opened Seqs
  import opened Calendar
  import Text
  import opened Json

  datatype FilterKind = TextFilter | SelectFilter | DateFilter | AmountFilter

  datatype FilterConfig = FilterConfig(field: string, title: string, kind: FilterKind)

  /** The filter values by field. Values are strings (typed text, a chosen
      option, a picked date's ISO text) or `undefined` (`None`), which a
      cleared date picker stores. */
  type Filters = map<string, Option<string>>

  /** `filters.find(f => f.field === field)`: the first configuration of the
      field, if any. */
  function Find(configs: seq<FilterConfig>, field: string): (r: Option<FilterConfig>)
    ensures r.None? <==> forall i :: 0 <= i < |configs| ==> configs[i].field != field
    ensures r.Some? ==> exists i :: 0 <= i < |configs| && configs[i] == r.value && r.value.field == field
                                   && forall j :: 0 <= j < i ==> configs[j].field != field
  {
    if configs == [] then None
    else if configs[0].field == field then Some(configs[0])
    else
      var r := Find(configs[1..], field);
      assert r.Some? ==> exists i :: 0 <= i < |configs| && configs[i] == r.value && r.value.field == field
                                    && forall j :: 0 <= j < i ==> configs[j].field != field by {
        if r.Some? {
          var i :| 0 <= i < |configs[1..]| && configs[1..][i] == r.value && r.value.field == field
                   && forall j :: 0 <= j < i ==> configs[1..][j].field != field;
          assert forall j :: 0 <= j < i + 1 ==> configs[j].field != field by {
            forall j | 0 <= j < i + 1
              ensures configs[j].field != field
            {
              if j > 0 {
                assert configs[j] == configs[1..][j - 1];
              }
            }
          }
        }
      }
      r
  }

  /** `value && value !== '' && value !== 'all'`: an entry that narrows. */
  predicate Narrows(value: Option<string>)
  {
    value.Some? && value.value != "" && value.value != "all"
  }

  // ---------------------------------------------------------------------------
  // Dates

  /** ECMAScript's TimeClip: a time value outside the valid range is an
      Invalid Date. */
  function Clip(t: Option<int>): Option<int>
  {
    if t.Some? && ValidTime(t.value) then t else None
  }

  /** `new Date(item[field])`, given the string parser `Date.parse`; `None`
      is an Invalid Date. `null` and `false` convert to 0, `true` to 1. */
  function DateOf(v: Option<Value>, parseDate: string -> Option<int>): Option<int>
  {
    match v
    case None => None
    case Some(Null) => Some(0)
    case Some(Str(s)) => Clip(parseDate(s))
    case Some(Num(n)) => Clip(Some(n))
    case Some(Bool(b)) => Some(if b then 1 else 0)
  }

  /** `a.toDateString() === b.toDateString()`: both read "Invalid Date", or
      both are valid and fall on the same day. */
  predicate SameDateString(a: Option<int>, b: Option<int>)
  {
    if a.None? || b.None? then a.None? && b.None? else DayOf(a.value) == DayOf(b.value)
  }

  // ---------------------------------------------------------------------------
  // The export predicate

  /** Whether `item` passes the entry `field: value` whose value narrows. */
  predicate EntryHolds(item: Item, configs: seq<FilterConfig>, field: string, value: string,
                       parseDate: string -> Option<int>)
  {
    var config := Find(configs, field);
    var v := Field(item, field);
    if config.None? then true
    else match config.value.kind
      case TextFilter =>
        v.Some? && v.value != Null && Text.Contains(Text.Lower(JsString(v.value)), Text.Lower(value))
      case SelectFilter => v == Some(Str(value))
      case DateFilter => SameDateString(DateOf(v, parseDate), Clip(parseDate(value)))
      case AmountFilter =>
        var threshold := Text.ParseFloat(value);
        var amount := ParseNumber(v);
        threshold.None? || (amount.Some? && amount.value >= threshold.value)
  }

  /** Whether `item` passes every narrowing entry of `filters` whose field is
      in `fields`. */
  predicate HoldsOn(item: Item, configs: seq<FilterConfig>, filters: Filters, fields: set<string>,
                    parseDate: string -> Option<int>)
  {
    forall f :: f in fields && f in filters && Narrows(filters[f]) ==>
      EntryHolds(item, configs, f, filters[f].value, parseDate)
  }

  function HoldsTest(configs: seq<FilterConfig>, filters: Filters, fields: set<string>,
                     parseDate: string -> Option<int>): Item -> bool
  {
    item => HoldsOn(item, configs, filters, fields, parseDate)
  }

  function EntryTest(configs: seq<FilterConfig>, field: string, value: string,
                     parseDate: string -> Option<int>): Item -> bool
  {
    item => EntryHolds(item, configs, field, value, parseDate)
  }

  /** The list exported to Excel or PDF: with no filter keys the data itself,
      otherwise the items passing every entry. */
  function Exported(data: seq<Item>, configs: seq<FilterConfig>, filters: Filters,
                    parseDate: string -> Option<int>): seq<Item>
  {
    if |filters| > 0 then Filter(data, HoldsTest(configs, filters, filters.Keys, parseDate)) else data
  }

  /** With no filter keys, the export is the data unchanged. */
  lemma ExportedNoKeys(data: seq<Item>, configs: seq<FilterConfig>, parseDate: string -> Option<int>)
    ensures Exported(data, configs, map[], parseDate) == data
  {
  }

  /** Two entry sets that narrow on the same fields with the same values
      pass the same items. */
  lemma HoldsOnAgree(item: Item, configs: seq<FilterConfig>, a: Filters, af: set<string>,
                     b: Filters, bf: set<string>, parseDate: string -> Option<int>)
    requires forall f :: (f in af && f in a && Narrows(a[f])) <==> (f in bf && f in b && Narrows(b[f]))
    requires forall f :: f in af && f in a && Narrows(a[f]) ==> f in b && a[f] == b[f]
    ensures HoldsOn(item, configs, a, af, parseDate) == HoldsOn(item, configs, b, bf, parseDate)
  {
  }

  /** Taking one more field into account conjoins its entry. */
  lemma HoldsOnStep(configs: seq<FilterConfig>, filters: Filters, done: set<string>, field: string,
                    parseDate: string -> Option<int>)
    requires field in filters && Narrows(filters[field])
    ensures forall x :: (HoldsTest(configs, filters, done + {field}, parseDate)(x) ==
      (HoldsTest(configs, filters, done, parseDate)(x) && EntryTest(configs, field, filters[field].value, parseDate)(x)))
  {
  }

  /** Before any field is taken into account, nothing is removed. */
  lemma NoFieldsKeepAll(data: seq<Item>, configs: seq<FilterConfig>, filters: Filters,
                        parseDate: string -> Option<int>)
    ensures Filter(data, HoldsTest(configs, filters, {}, parseDate)) == data
  {
    FilterKeepsAll(data, HoldsTest(configs, filters, {}, parseDate));
  }

  /** One loop step over a narrowing entry: filtering the selection so far
      by it gives the selection by one more field. */
  lemma NarrowStep(data: seq<Item>, configs: seq<FilterConfig>, filters: Filters, done: set<string>,
                   field: string, parseDate: string -> Option<int>)
    requires field in filters && Narrows(filters[field])
    ensures Filter(Filter(data, HoldsTest(configs, filters, done, parseDate)),
                   EntryTest(configs, field, filters[field].value, parseDate))
         == Filter(data, HoldsTest(configs, filters, done + {field}, parseDate))
  {
    HoldsOnStep(configs, filters, done, field, parseDate);
    FilterFilter(data, HoldsTest(configs, filters, done, parseDate),
                 EntryTest(configs, field, filters[field].value, parseDate),
                 HoldsTest(configs, filters, done + {field}, parseDate));
  }

  /** One loop step over an entry that does not narrow changes nothing. */
  lemma InertStep(data: seq<Item>, configs: seq<FilterConfig>, filters: Filters, done: set<string>,
                  field: string, parseDate: string -> Option<int>)
    requires field in filters && !Narrows(filters[field])
    ensures Filter(data, HoldsTest(configs, filters, done, parseDate))
         == Filter(data, HoldsTest(configs, filters, done + {field}, parseDate))
  {
    var before := HoldsTest(configs, filters, done, parseDate);
    var after := HoldsTest(configs, filters, done + {field}, parseDate);
    forall i | 0 <= i < |data|
      ensures before(data[i]) == after(data[i])
    {
      HoldsOnAgree(data[i], configs, filters, done, filters, done + {field}, parseDate);
    }
    FilterCongruent(data, before, after);
  }

  /** The export keeps exactly the items that pass every narrowing entry, in
      their order. */
  lemma ExportedIff(data: seq<Item>, configs: seq<FilterConfig>, filters: Filters,
                    parseDate: string -> Option<int>, x: Item)
    ensures IsSubseq(Exported(data, configs, filters, parseDate), data)
    ensures x in Exported(data, configs, filters, parseDate) <==>
      x in data && forall f :: f in filters && Narrows(filters[f]) ==>
        EntryHolds(x, configs, f, filters[f].value, parseDate)
  {
    var p := HoldsTest(configs, filters, filters.Keys, parseDate);
    FilterIsSubseq(data, p);
    ExportedIsFilter(data, configs, filters, parseDate);
    assert p(x) == HoldsOn(x, configs, filters, filters.Keys, parseDate);
    if x in data && p(x) {
      var i :| 0 <= i < |data| && data[i] == x;
      assert data[i] in Filter(data, p);
    }
  }

  /** One narrowing entry keeps exactly the items that pass it. */
  lemma SingleEntryIff(data: seq<Item>, configs: seq<FilterConfig>, field: string, value: string,
                       parseDate: string -> Option<int>, x: Item)
    requires value != "" && value != "all"
    ensures x in Exported(data, configs, map[field := Some(value)], parseDate) <==>
      x in data && EntryHolds(x, configs, field, value, parseDate)
  {
    var filters := map[field := Some(value)];
    ExportedIff(data, configs, filters, parseDate, x);
    assert Narrows(filters[field]);
  }

  /** The export, whether or not there are keys, is the filter by all
      entries. */
  lemma ExportedIsFilter(data: seq<Item>, configs: seq<FilterConfig>, filters: Filters,
                         parseDate: string -> Option<int>)
    ensures Exported(data, configs, filters, parseDate) == Filter(data, HoldsTest(configs, filters, filters.Keys, parseDate))
  {
    if |filters| == 0 {
      assert filters == map[];
      FilterKeepsAll(data, HoldsTest(configs, filters, filters.Keys, parseDate));
    }
  }

  /** An entry whose value is `undefined`, '' or 'all' narrows nothing: the
      export is the same without it. */
  lemma InertEntry(data: seq<Item>, configs: seq<FilterConfig>, filters: Filters, field: string,
                   parseDate: string -> Option<int>)
    requires field in filters && !Narrows(filters[field])
    ensures Exported(data, configs, filters, parseDate) == Exported(data, configs, filters - {field}, parseDate)
  {
    var rest := filters - {field};
    ExportedIsFilter(data, configs, filters, parseDate);
    ExportedIsFilter(data, configs, rest, parseDate);
    var p := HoldsTest(configs, filters, filters.Keys, parseDate);
    var q := HoldsTest(configs, rest, rest.Keys, parseDate);
    forall i | 0 <= i < |data|
      ensures p(data[i]) == q(data[i])
    {
      HoldsOnAgree(data[i], configs, filters, filters.Keys, rest, rest.Keys, parseDate);
    }
    FilterCongruent(data, p, q);
  }

  /** A text filter keeps exactly the items whose field, as lower-case text,
      contains the lower-case filter value. */
  lemma TextFilterIff(data: seq<Item>, configs: seq<FilterConfig>, field: string, value: string,
                      parseDate: string -> Option<int>, x: Item)
    requires Find(configs, field).Some? && Find(configs, field).value.kind == TextFilter
    requires value != "" && value != "all"
    ensures x in Exported(data, configs, map[field := Some(value)], parseDate) <==>
      x in data && field in x && x[field] != Null &&
      Text.Contains(Text.Lower(JsString(x[field])), Text.Lower(value))
  {
    SingleEntryIff(data, configs, field, value, parseDate, x);
  }

  /** A select filter keeps exactly the items whose field is that string. */
  lemma SelectFilterIff(data: seq<Item>, configs: seq<FilterConfig>, field: string, value: string,
                        parseDate: string -> Option<int>, x: Item)
    requires Find(configs, field).Some? && Find(configs, field).value.kind == SelectFilter
    requires value != "" && value != "all"
    ensures x in Exported(data, configs, map[field := Some(value)], parseDate) <==>
      x in data && field in x && x[field] == Str(value)
  {
    SingleEntryIff(data, configs, field, value, parseDate, x);
  }

  /** A date filter keeps exactly the items whose field is a date on the
      filter's day (two Invalid Dates also agree). */
  lemma DateFilterIff(data: seq<Item>, configs: seq<FilterConfig>, field: string, value: string,
                      parseDate: string -> Option<int>, x: Item)
    requires Find(configs, field).Some? && Find(configs, field).value.kind == DateFilter
    requires value != "" && value != "all"
    ensures x in Exported(data, configs, map[field := Some(value)], parseDate) <==>
      x in data && SameDateString(DateOf(Field(x, field), parseDate), Clip(parseDate(value)))
  {
    SingleEntryIff(data, configs, field, value, parseDate, x);
  }

  /** An amount filter with a numeric threshold keeps exactly the items whose
      field reads as a number at least that large. */
  lemma AmountFilterIff(data: seq<Item>, configs: seq<FilterConfig>, field: string, value: string,
                        parseDate: string -> Option<int>, x: Item)
    requires Find(configs, field).Some? && Find(configs, field).value.kind == AmountFilter
    requires value != "" && value != "all" && Text.ParseFloat(value).Some?
    ensures x in Exported(data, configs, map[field := Some(value)], parseDate) <==>
      x in data && ParseNumber(Field(x, field)).Some? &&
      ParseNumber(Field(x, field)).value >= Text.ParseFloat(value).value
  {
    SingleEntryIff(data, configs, field, value, parseDate, x);
  }

  /** An amount filter whose threshold is not a number keeps everything. */
  lemma UnparsableAmountKeepsAll(data: seq<Item>, configs: seq<FilterConfig>, field: string, value: string,
                                 parseDate: string -> Option<int>)
    requires Find(configs, field).Some? && Find(configs, field).value.kind == AmountFilter
    requires Text.ParseFloat(value).None?
    ensures Exported(data, configs, map[field := Some(value)], parseDate) == data
  {
    var filters := map[field := Some(value)];
    ExportedIsFilter(data, configs, filters, parseDate);
    var p := HoldsTest(configs, filters, filters.Keys, parseDate);
    forall i | 0 <= i < |data|
      ensures p(data[i])
    {
      assert EntryHolds(data[i], configs, field, value, parseDate);
    }
    FilterKeepsAll(data, p);
  }

  /** A field no configuration describes passes every item. */
  lemma UnconfiguredKeepsAll(data: seq<Item>, configs: seq<FilterConfig>, field: string, value: Option<string>,
                             parseDate: string -> Option<int>)
    requires Find(configs, field).None?
    ensures Exported(data, configs, map[field := value], parseDate) == data
  {
    var filters := map[field := value];
    ExportedIsFilter(data, configs, filters, parseDate);
    var p := HoldsTest(configs, filters, filters.Keys, parseDate);
    forall i | 0 <= i < |data|
      ensures p(data[i])
    {
      assert value.Some? ==> EntryHolds(data[i], configs, field, value.value, parseDate);
    }
    FilterKeepsAll(data, p);
  }

  // ---------------------------------------------------------------------------
  // The filter loop of `applyFilters`

  /** Narrows `data` one entry at a time, in whatever order the keys are
      taken; the result is the export predicate's selection. */
  method RunFilters(data: seq<Item>, configs: seq<FilterConfig>, filters: Filters,
                    parseDate: string -> Option<int>) returns (filtered: seq<Item>)
    ensures filtered == Exported(data, configs, filters, parseDate)
  {
    filtered := data;
    var remaining := filters.Keys;
    ghost var done: set<string> := {};
    NoFieldsKeepAll(data, configs, filters, parseDate);
    while remaining != {}
      invariant remaining + done == filters.Keys && remaining !! done
      invariant filtered == Filter(data, HoldsTest(configs, filters, done, parseDate))
      decreases |remaining|
    {
      var field :| field in remaining;
      if Narrows(filters[field]) {
        NarrowStep(data, configs, filters, done, field, parseDate);
        filtered := Filter(filtered, EntryTest(configs, field, filters[field].value, parseDate));
      } else {
        InertStep(data, configs, filters, done, field, parseDate);
      }
      remaining := remaining - {field};
      done := done + {field};
    }
    assert done == filters.Keys;
    ExportedIsFilter(data, configs, filters, parseDate);
  }

  // ---------------------------------------------------------------------------
  // `applyFilters` as written

  /** An entry that reaches the date or amount branch of `applyFilters`,
      which reads `item` outside the callback that binds it. */
  predicate ReachesUnboundItem(configs: seq<FilterConfig>, filters: Filters)
  {
    exists f :: f in filters && Narrows(filters[f]) && Find(configs, f).Some? &&
      Find(configs, f).value.kind in {DateFilter, AmountFilter}
  }

  /** `applyFilters` as written: a narrowing date or amount entry throws a
      ReferenceError (`None`) before anything is reported; otherwise the
      text and select entries filter as the export does. */
  function AppliedAsWritten(data: seq<Item>, configs: seq<FilterConfig>, filters: Filters,
                            parseDate: string -> Option<int>): (r: Option<seq<Item>>)
    ensures r.None? <==> ReachesUnboundItem(configs, filters)
  {
    if ReachesUnboundItem(configs, filters) then None
    else Some(Filter(data, HoldsTest(configs, filters, filters.Keys, parseDate)))
  }

  /** Without a narrowing date or amount entry, the code as written agrees
      with the export. */
  lemma AsWrittenAgreesOtherwise(data: seq<Item>, configs: seq<FilterConfig>, filters: Filters,
                                 parseDate: string -> Option<int>)
    requires !ReachesUnboundItem(configs, filters)
    ensures AppliedAsWritten(data, configs, filters, parseDate) == Some(Exported(data, configs, filters, parseDate))
  {
    ExportedIsFilter(data, configs, filters, parseDate);
  }

  /** A minimum-amount filter of 100 over one record of 150.00 (15000 cents): the export
      keeps the record, while `applyFilters` as written throws. */
  lemma AmountFilterThrowsAsWritten(parseDate: string -> Option<int>)
    ensures var configs := [FilterConfig("amountCp", "Montant CP", AmountFilter)];
            var data := [map["amountCp" := Str(Text.CentsText(15000))]];
            var filters := map["amountCp" := Some("100")];
            AppliedAsWritten(data, configs, filters, parseDate).None? &&
            Exported(data, configs, filters, parseDate) == data
  {
    var configs := [FilterConfig("amountCp", "Montant CP", AmountFilter)];
    var item := map["amountCp" := Str(Text.CentsText(15000))];
    var filters := map["amountCp" := Some("100")];
    assert Find(configs, "amountCp") == Some(configs[0]);
    assert ReachesUnboundItem(configs, filters) by {
      assert "amountCp" in filters && Narrows(filters["amountCp"]);
    }
    AmountPasses(item, configs, parseDate);
    SingleEntryIff([item], configs, "amountCp", "100", parseDate, item);
    var kept := Exported([item], configs, filters, parseDate);
    assert item in kept;
    assert |kept| <= 1 && item in kept;
    assert kept == [item] by {
      assert kept[0] == item;
    }
  }

  /** The record of 150.00 passes the threshold 100. */
  lemma AmountPasses(item: Item, configs: seq<FilterConfig>, parseDate: string -> Option<int>)
    requires item == map["amountCp" := Str(Text.CentsText(15000))]
    requires configs == [FilterConfig("amountCp", "Montant CP", AmountFilter)]
    ensures EntryHolds(item, configs, "amountCp", "100", parseDate)
  {
    assert Find(configs, "amountCp") == Some(configs[0]);
    Hundred();
    HundredFifty();
    assert Field(item, "amountCp") == Some(Str(Text.CentsText(15000)));
  }

  lemma Hundred()
    ensures Text.ParseFloat("100") == Some(100.0)
  {
    NumberValue(100);
    assert JsString(Num(100)) == "100";
  }

  lemma HundredFifty()
    ensures ParseNumber(Some(Str(Text.CentsText(15000)))) == Some(150.0)
  {
    AmountValue(15000);
  }

  // ---------------------------------------------------------------------------
  // The component's state

  /** The panel of one table: its configurations and data are fixed props;
      `activeFilters` is its state and `reported` the last list it handed to
      its `onFilteredData` callback (the parent starts with `[]`). */
  class FilterPanel {
    const configs: seq<FilterConfig>
    const data: seq<Item>
    const parseDate: string -> Option<int>
    var activeFilters: Filters
    var reported: seq<Item>

    constructor(configs: seq<FilterConfig>, data: seq<Item>, parseDate: string -> Option<int>)
      ensures this.configs == configs && this.data == data && this.parseDate == parseDate
      ensures activeFilters == map[] && reported == []
    {
      this.configs := configs;
      this.data := data;
      this.parseDate := parseDate;
      activeFilters := map[];
      reported := [];
    }

    /** The reported list is what an export of the current filters holds. */
    predicate Consistent()
      reads this
    {
      reported == Exported(data, configs, activeFilters, parseDate)
    }

    /** `applyFilters`, with the date and amount branches reading the entry
      per item as the export predicate does. */
    method ApplyFilters(newFilters: Filters)
      modifies this
      ensures activeFilters == newFilters
      ensures reported == Exported(data, configs, newFilters, parseDate)
      ensures Consistent()
    {
      activeFilters := newFilters;
      reported := RunFilters(data, configs, newFilters, parseDate);
    }

    /** `updateFilter`: sets one field, keeps the others, re-applies. */
    method UpdateFilter(field: string, value: Option<string>)
      modifies this
      ensures activeFilters == old(activeFilters)[field := value]
      ensures forall f :: f != field ==>
        (f in activeFilters <==> f in old(activeFilters)) &&
        (f in activeFilters ==> activeFilters[f] == old(activeFilters)[f])
      ensures Consistent()
    {
      ApplyFilters(activeFilters[field := value]);
    }

    /** `clearFilter`: removes one field, keeps the others, re-applies. */
    method ClearFilter(field: string)
      modifies this
      ensures activeFilters == old(activeFilters) - {field}
      ensures field !in activeFilters
      ensures forall f :: f != field ==>
        (f in activeFilters <==> f in old(activeFilters)) &&
        (f in activeFilters ==> activeFilters[f] == old(activeFilters)[f])
      ensures Consistent()
    {
      ApplyFilters(activeFilters - {field});
    }

    /** `applyFilters` as written: the new map is stored first; an entry
        that reaches the unbound `item` then throws, and nothing is
        reported, so the last report stays. */
    method ApplyFiltersAsWritten(newFilters: Filters)
      modifies this
      ensures activeFilters == newFilters
      ensures ReachesUnboundItem(configs, newFilters) ==> reported == old(reported)
      ensures !ReachesUnboundItem(configs, newFilters) ==> Consistent()
    {
      activeFilters := newFilters;
      var applied := AppliedAsWritten(data, configs, newFilters, parseDate);
      if applied.Some? {
        AsWrittenAgreesOtherwise(data, configs, newFilters, parseDate);
        reported := applied.value;
      }
    }

    /** `updateFilter` on the panel as written. */
    method UpdateFilterAsWritten(field: string, value: Option<string>)
      modifies this
      ensures activeFilters == old(activeFilters)[field := value]
      ensures ReachesUnboundItem(configs, activeFilters) ==> reported == old(reported)
      ensures !ReachesUnboundItem(configs, activeFilters) ==> Consistent()
    {
      ApplyFiltersAsWritten(activeFilters[field := value]);
    }

    /** `clearFilter` on the panel as written. */
    method ClearFilterAsWritten(field: string)
      modifies this
      ensures activeFilters == old(activeFilters) - {field}
      ensures ReachesUnboundItem(configs, activeFilters) ==> reported == old(reported)
      ensures !ReachesUnboundItem(configs, activeFilters) ==> Consistent()
    {
      ApplyFiltersAsWritten(activeFilters - {field});
    }

    /** `clearAllFilters`: empties the map and reports the whole data. */
    method ClearAllFilters()
      modifies this
      ensures activeFilters == map[] && reported == data
      ensures Consistent()
    {
      activeFilters := map[];
      reported := data;
    }
  }
}
