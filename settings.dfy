/**
 * The extension's settings store: an INI table of sections, each a table of
 * keys to strings. Every accessor first materialises what it reads (the
 * section, then the key with its default), so reading changes the table.
 * Pure functions on `IniData` say what each accessor returns and leaves
 * behind; the class `TeamPilgrimSettings` updates its table in place and is
 * proved against them.
 */
module Settings {
  import opened Wrappers
  import Text

  type Section = map<string, string>
  type IniData = map<string, Section>

  const GeneralSectionName := "General"
  const SelectedWorkItemCheckinActionKeyName := "SelectedWorkItemCheckinAction"
  const SeparatorKeyName := "PreviouslySelectedWorkItemQueriesValueSeperator"
  const MaxCountKeyName := "PreviouslySelectedWorkItemQueriesMaxCount"
  const QueriesSectionName := "PreviouslySelectedWorkItemQueries"

  const DefaultSeparator := "||"
  const DefaultMaxCount := 5

  /** The check-in action applied to selected work items. */
  datatype CheckinAction = Resolve | Associate

  /** `value.ToString()` of the enum. */
  function ActionName(a: CheckinAction): (r: string)
    ensures r == "Resolve" || r == "Associate"
    ensures r == "Resolve" <==> a == Resolve
  {
    match a
    case Resolve => "Resolve"
    case Associate => "Associate"
  }

  /** `Enum.Parse` on a member name; `None` is the ArgumentException it throws. */
  function ParseAction(s: string): (r: Option<CheckinAction>)
    ensures r.Some? <==> s == "Resolve" || s == "Associate"
    ensures r.Some? ==> ActionName(r.value) == s
  {
    if s == "Resolve" then Some(Resolve)
    else if s == "Associate" then Some(Associate)
    else None
  }

  /** The stored value of `key` in `section`, if both exist. */
  function Lookup(d: IniData, section: string, key: string): Option<string> {
    if section in d && key in d[section] then Some(d[section][key]) else None
  }

  /** The table after `AddSection(section)` when the section is missing. */
  function WithSection(d: IniData, section: string): (r: IniData)
    ensures section in r
    ensures r.Keys == d.Keys + {section}
    ensures forall s :: s in d ==> r[s] == d[s]
    ensures section !in d ==> r[section] == map[]
  {
    if section in d then d else d[section := map[]]
  }

  /**
   * The table after the get-or-insert step every accessor runs: the section is
   * created if missing, then `key` is added with `default` if missing.
   * Afterwards the key is present, holding its old value if it had one and
   * `default` otherwise; no other stored value is touched.
   */
  function WithKey(d: IniData, section: string, key: string, default: string): (r: IniData)
    ensures Lookup(r, section, key) == Some(Lookup(d, section, key).GetOr(default))
    ensures r.Keys == d.Keys + {section}
    ensures forall s :: s in d && s != section ==> r[s] == d[s]
    ensures r[section].Keys == (if section in d then d[section].Keys else {}) + {key}
    ensures forall s, k :: s != section || k != key ==> Lookup(r, s, k) == Lookup(d, s, k)
    ensures Lookup(d, section, key).Some? ==> r == WithSection(d, section)
  {
    var e := WithSection(d, section);
    if key in e[section] then e else e[section := e[section][key := default]]
  }

  /** The table after a setter: get-or-insert of the key, then `value` stored under it. */
  function Store(d: IniData, section: string, key: string, value: string): (r: IniData)
    ensures Lookup(r, section, key) == Some(value)
    ensures r.Keys == d.Keys + {section}
    ensures forall s :: s in d && s != section ==> r[s] == d[s]
    ensures forall s, k :: s != section || k != key ==> Lookup(r, s, k) == Lookup(d, s, k)
  {
    var e := WithSection(d, section);
    e[section := e[section][key := value]]
  }

  /** A setter's get-or-insert step is overwritten by the assignment that follows it. */
  lemma StoreAfterWithKey(d: IniData, section: string, key: string, default: string, value: string)
    ensures var e := WithKey(d, section, key, default);
            e[section := e[section][key := value]] == Store(d, section, key, value)
  {
    var e := WithKey(d, section, key, default);
    var w := WithSection(d, section);
    assert e[section][key := value] == w[section][key := value];
  }

  // ---------------------------------------------------------------------
  // The check-in action

  /** What the table must hold for the check-in action getter not to throw. */
  predicate ActionParses(d: IniData) {
    match Lookup(d, GeneralSectionName, SelectedWorkItemCheckinActionKeyName)
    case None => true
    case Some(v) => v == "" || ParseAction(v).Some?
  }

  /** The table the check-in action getter leaves behind (`AddKey` without a value stores ""). */
  function CheckinActionTable(d: IniData): IniData {
    WithKey(d, GeneralSectionName, SelectedWorkItemCheckinActionKeyName, "")
  }

  /**
   * What the check-in action getter returns: `Resolve` when the key is
   * missing or empty, otherwise the parsed member.
   */
  function CheckinActionOf(d: IniData): (a: CheckinAction)
    requires ActionParses(d)
    ensures Lookup(d, GeneralSectionName, SelectedWorkItemCheckinActionKeyName) in {None, Some("")} ==> a == Resolve
    ensures Lookup(d, GeneralSectionName, SelectedWorkItemCheckinActionKeyName) !in {None, Some("")} ==>
              Lookup(d, GeneralSectionName, SelectedWorkItemCheckinActionKeyName) == Some(ActionName(a))
  {
    var v := Lookup(d, GeneralSectionName, SelectedWorkItemCheckinActionKeyName).GetOr("");
    if v == "" then Resolve else ParseAction(v).value
  }

  /** The table after the check-in action setter. */
  function WithCheckinAction(d: IniData, a: CheckinAction): (r: IniData)
    ensures Lookup(r, GeneralSectionName, SelectedWorkItemCheckinActionKeyName) == Some(ActionName(a))
    ensures forall s, k :: s != GeneralSectionName || k != SelectedWorkItemCheckinActionKeyName ==>
              Lookup(r, s, k) == Lookup(d, s, k)
  {
    Store(d, GeneralSectionName, SelectedWorkItemCheckinActionKeyName, ActionName(a))
  }

  /** Setting the check-in action and reading it back gives the same member. */
  lemma CheckinActionRoundTrip(d: IniData, a: CheckinAction)
    ensures ActionParses(WithCheckinAction(d, a))
    ensures CheckinActionOf(WithCheckinAction(d, a)) == a
  {
    assert ParseAction(ActionName(a)) == Some(a);
  }

  // ---------------------------------------------------------------------
  // The separator of stored query lists

  /** The table the separator getter leaves behind. */
  function SeparatorTable(d: IniData): IniData {
    WithKey(d, GeneralSectionName, SeparatorKeyName, DefaultSeparator)
  }

  /** What the separator getter returns: the stored text, or "||" when the key is missing. */
  function SeparatorOf(d: IniData): (sep: string)
    ensures Lookup(d, GeneralSectionName, SeparatorKeyName).None? ==> sep == DefaultSeparator
    ensures Lookup(d, GeneralSectionName, SeparatorKeyName).Some? ==>
              sep == Lookup(d, GeneralSectionName, SeparatorKeyName).value
    ensures Lookup(SeparatorTable(d), GeneralSectionName, SeparatorKeyName) == Some(sep)
  {
    Lookup(d, GeneralSectionName, SeparatorKeyName).GetOr(DefaultSeparator)
  }

  /** The table after the separator setter. */
  function WithSeparator(d: IniData, sep: string): (r: IniData)
    ensures Lookup(r, GeneralSectionName, SeparatorKeyName) == Some(sep)
    ensures forall s, k :: s != GeneralSectionName || k != SeparatorKeyName ==> Lookup(r, s, k) == Lookup(d, s, k)
  {
    Store(d, GeneralSectionName, SeparatorKeyName, sep)
  }

  /** Setting the separator and reading it back gives the same text. */
  lemma SeparatorRoundTrip(d: IniData, sep: string)
    ensures SeparatorOf(WithSeparator(d, sep)) == sep
    ensures SeparatorTable(WithSeparator(d, sep)) == WithSeparator(d, sep)
  {
  }

  // ---------------------------------------------------------------------
  // The maximum number of remembered queries

  /** What the table must hold for the max count getter not to throw. */
  predicate MaxCountParses(d: IniData) {
    match Lookup(d, GeneralSectionName, MaxCountKeyName)
    case None => true
    case Some(v) => Text.ParseInt32(v).Some?
  }

  /** The table the max count getter leaves behind: "5" is inserted when the key is missing. */
  function MaxCountTable(d: IniData): IniData {
    WithKey(d, GeneralSectionName, MaxCountKeyName, Text.IntToString(DefaultMaxCount))
  }

  /** What the max count getter returns: 5 when the key is missing, else the stored number. */
  function MaxCountOf(d: IniData): (n: int)
    requires MaxCountParses(d)
    ensures Text.IsInt32(n)
    ensures Lookup(d, GeneralSectionName, MaxCountKeyName).None? ==> n == DefaultMaxCount
  {
    match Lookup(d, GeneralSectionName, MaxCountKeyName)
    case None => Text.IntRoundTrip(DefaultMaxCount); Text.ParseInt32(Text.IntToString(DefaultMaxCount)).value
    case Some(v) => Text.ParseInt32(v).value
  }

  /** The table after the max count setter (`value.ToString()` is stored). */
  function WithMaxCount(d: IniData, n: int): (r: IniData)
    ensures Lookup(r, GeneralSectionName, MaxCountKeyName) == Some(Text.IntToString(n))
    ensures forall s, k :: s != GeneralSectionName || k != MaxCountKeyName ==> Lookup(r, s, k) == Lookup(d, s, k)
  {
    Store(d, GeneralSectionName, MaxCountKeyName, Text.IntToString(n))
  }

  /** Setting the max count and reading it back gives the same integer. */
  lemma MaxCountRoundTrip(d: IniData, n: int)
    requires Text.IsInt32(n)
    ensures MaxCountParses(WithMaxCount(d, n))
    ensures MaxCountOf(WithMaxCount(d, n)) == n
  {
    Text.IntRoundTrip(n);
  }

  /** The default max count is written as "5". */
  lemma DefaultMaxCountText()
    ensures Text.IntToString(DefaultMaxCount) == "5"
  {
  }

  // ---------------------------------------------------------------------
  // Previously selected work item queries

  /** Whether the stored separator is non-empty, so that a read cuts where the write joined. */
  predicate SeparatorUsable(d: IniData) {
    SeparatorOf(d) != ""
  }

  /**
   * The table a query list read leaves behind: the key `index` is materialised
   * in the queries section, then the separator getter runs.
   */
  function QueriesTable(d: IniData, index: string): IniData {
    SeparatorTable(WithKey(d, QueriesSectionName, index, ""))
  }

  /**
   * What a query list read returns: the stored text split on the separator,
   * empty entries dropped; an empty separator cuts nothing.
   */
  function QueriesOf(d: IniData, index: string): (r: seq<string>)
    ensures forall k :: 0 <= k < |r| ==> r[k] != ""
    ensures SeparatorOf(d) == "" ==> |r| <= 1
    ensures Lookup(d, QueriesSectionName, index) in {None, Some("")} ==> r == []
  {
    var e := WithKey(d, QueriesSectionName, index, "");
    assert SeparatorOf(e) == SeparatorOf(d);
    Text.Split(e[QueriesSectionName][index], SeparatorOf(e))
  }

  /** The table after a query list write: the list joined with the separator. */
  function WithQueries(d: IniData, index: string, queries: seq<string>): (r: IniData)
    ensures Lookup(r, QueriesSectionName, index) == Some(Text.Join(SeparatorOf(d), queries))
    ensures SeparatorOf(r) == SeparatorOf(d)
  {
    var e := WithKey(d, QueriesSectionName, index, "");
    assert SeparatorOf(e) == SeparatorOf(d);
    Store(SeparatorTable(e), QueriesSectionName, index, Text.Join(SeparatorOf(e), queries))
  }

  /** Entries that survive the round trip: none contains a character of the separator. */
  predicate StorableQueries(queries: seq<string>, sep: string) {
    forall k :: 0 <= k < |queries| ==> Text.FreeOf(queries[k], sep)
  }

  /**
   * Writing a query list and reading it back gives the list without its empty
   * entries, when no entry contains a character of the separator (for "||":
   * no entry contains '|').
   */
  lemma QueriesRoundTrip(d: IniData, index: string, queries: seq<string>)
    requires SeparatorUsable(d)
    requires StorableQueries(queries, SeparatorOf(d))
    ensures SeparatorUsable(WithQueries(d, index, queries))
    ensures QueriesOf(WithQueries(d, index, queries), index) == Text.NonEmpty(queries)
  {
    var e := WithKey(d, QueriesSectionName, index, "");
    assert SeparatorOf(e) == SeparatorOf(d);
    var w := WithQueries(d, index, queries);
    var e2 := WithKey(w, QueriesSectionName, index, "");
    assert SeparatorOf(e2) == SeparatorOf(d);
    Text.SplitJoin(queries, SeparatorOf(d));
  }

  /**
   * With an empty separator the entries are written back to back and the
   * read cuts nothing: they come back merged into one entry (none when all
   * are empty).
   */
  lemma EmptySeparatorMergesQueries(d: IniData, index: string, queries: seq<string>)
    requires SeparatorOf(d) == ""
    ensures QueriesOf(WithQueries(d, index, queries), index) == Text.NonEmpty([Text.Join("", queries)])
  {
    var e := WithKey(d, QueriesSectionName, index, "");
    assert SeparatorOf(e) == SeparatorOf(d);
    var w := WithQueries(d, index, queries);
    var e2 := WithKey(w, QueriesSectionName, index, "");
    assert SeparatorOf(e2) == "";
  }

  /** Reading a query index that was never written gives no queries and stores "" under it. */
  lemma QueriesOfMissingIndex(d: IniData, index: string)
    requires Lookup(d, QueriesSectionName, index).None?
    ensures QueriesOf(d, index) == []
    ensures Lookup(QueriesTable(d, index), QueriesSectionName, index) == Some("")
  {
  }

  /**
   * A query list write changes the value under `index` in the queries section
   * and nothing else, except that reading the separator inserts "||" into
   * General when the separator key is missing; when it is present, the General
   * section is left exactly as it was.
   */
  lemma {:induction false} WithQueriesFrame(d: IniData, index: string, queries: seq<string>)
    ensures forall s, k :: (s != QueriesSectionName || k != index) && (s != GeneralSectionName || k != SeparatorKeyName) ==>
              Lookup(WithQueries(d, index, queries), s, k) == Lookup(d, s, k)
    ensures Lookup(WithQueries(d, index, queries), GeneralSectionName, SeparatorKeyName) == Some(SeparatorOf(d))
    ensures Lookup(d, GeneralSectionName, SeparatorKeyName).Some? ==>
              WithQueries(d, index, queries)[GeneralSectionName] == d[GeneralSectionName]
  {
    var e := WithKey(d, QueriesSectionName, index, "");
    assert SeparatorOf(e) == SeparatorOf(d);
    var t := SeparatorTable(e);
    var w := WithQueries(d, index, queries);
    assert w == Store(t, QueriesSectionName, index, Text.Join(SeparatorOf(d), queries));
    if Lookup(d, GeneralSectionName, SeparatorKeyName).Some? {
      assert GeneralSectionName in d && GeneralSectionName in e && e[GeneralSectionName] == d[GeneralSectionName];
      assert t == WithSection(e, GeneralSectionName) == e;
    }
  }

  /** The table the load-failure fallback leaves: General holds the three defaults. */
  const FallbackData: IniData := map[GeneralSectionName := map[
    SelectedWorkItemCheckinActionKeyName := "Resolve",
    SeparatorKeyName := "||",
    MaxCountKeyName := "5"]]

  /**
   * Starting from an empty table, reading each general setting and writing the
   * value back leaves exactly the three defaults in General.
   */
  lemma FallbackDefaults()
    ensures var d1 := WithCheckinAction(CheckinActionTable(map[]), Resolve);
            var d2 := WithSeparator(SeparatorTable(d1), SeparatorOf(d1));
            && ActionParses(map[]) && CheckinActionOf(map[]) == Resolve
            && SeparatorOf(d1) == DefaultSeparator
            && MaxCountParses(d2) && MaxCountOf(d2) == DefaultMaxCount
            && WithMaxCount(MaxCountTable(d2), DefaultMaxCount) == FallbackData
  {
    DefaultMaxCountText();
    assert |SelectedWorkItemCheckinActionKeyName| < |MaxCountKeyName| < |SeparatorKeyName|;
    var d1 := WithCheckinAction(CheckinActionTable(map[]), Resolve);
    SetInGeneral(map[], SelectedWorkItemCheckinActionKeyName, "", "Resolve");
    var g1 := map[SelectedWorkItemCheckinActionKeyName := "Resolve"];
    assert d1 == map[GeneralSectionName := g1];
    var d2 := WithSeparator(SeparatorTable(d1), SeparatorOf(d1));
    SetInGeneral(d1, SeparatorKeyName, DefaultSeparator, DefaultSeparator);
    var g2 := g1[SeparatorKeyName := "||"];
    assert d2 == map[GeneralSectionName := g2];
    SetInGeneral(d2, MaxCountKeyName, "5", "5");
    assert FallbackData == map[GeneralSectionName := g2[MaxCountKeyName := "5"]];
  }

  /** A get-or-insert followed by an assignment on a table that holds at most General. */
  lemma SetInGeneral(d: IniData, key: string, default: string, value: string)
    requires d.Keys <= {GeneralSectionName}
    ensures Store(WithKey(d, GeneralSectionName, key, default), GeneralSectionName, key, value)
            == map[GeneralSectionName := (if GeneralSectionName in d then d[GeneralSectionName] else map[])[key := value]]
  {
    var e := WithKey(d, GeneralSectionName, key, default);
    StoreAfterWithKey(d, GeneralSectionName, key, default, value);
    var r := Store(d, GeneralSectionName, key, value);
    assert r.Keys == {GeneralSectionName};
  }

  // ---------------------------------------------------------------------
  // The settings object

  /** The settings object; `data` is the INI table it reads and writes in place. */
  class TeamPilgrimSettings {
    var data: IniData
    var previouslySelectedWorkItemsQueries: PreviouslySelectedWorkItemsQueriesCollection?

    /**
     * Loading the settings file yields `loaded`; `None` stands for a load that
     * threw, after which the three general settings are assigned to
     * themselves on an empty table, which materialises their defaults.
     */
    constructor (loaded: Option<IniData>)
      ensures loaded.Some? ==> data == loaded.value
      ensures loaded.None? ==> data == FallbackData
      ensures previouslySelectedWorkItemsQueries != null
      ensures previouslySelectedWorkItemsQueries.settings == this
    {
      data := if loaded.Some? then loaded.value else map[];
      previouslySelectedWorkItemsQueries := null;
      new;
      if loaded.None? {
        AssignGeneralSettingsToThemselves();
      }
      previouslySelectedWorkItemsQueries := new PreviouslySelectedWorkItemsQueriesCollection(this);
    }

    /** The fallback: each general setting is read and written back, on an empty table. */
    method AssignGeneralSettingsToThemselves()
      requires data == map[]
      modifies this`data
      ensures data == FallbackData
    {
      FallbackDefaults();
      var action := GetSelectedWorkItemCheckinAction();
      SetSelectedWorkItemCheckinAction(action);
      var sep := GetSeparator();
      SetSeparator(sep);
      var count := GetMaxCount();
      SetMaxCount(count);
    }

    /** `AddSection(section)` when the section is missing. */
    method EnsureSection(section: string)
      modifies this`data
      ensures data == WithSection(old(data), section)
    {
      if section !in data {
        data := data[section := map[]];
      }
    }

    /** `ContainsKey` / `AddKey(key, default)` on an existing section. */
    method EnsureKey(section: string, key: string, default: string)
      requires section in data
      modifies this`data
      ensures data == WithKey(old(data), section, key, default)
    {
      if key !in data[section] {
        data := data[section := data[section][key := default]];
      }
    }

    method GetSelectedWorkItemCheckinAction() returns (a: CheckinAction)
      requires ActionParses(data)
      modifies this`data
      ensures data == CheckinActionTable(old(data))
      ensures a == CheckinActionOf(old(data))
    {
      EnsureSection(GeneralSectionName);
      EnsureKey(GeneralSectionName, SelectedWorkItemCheckinActionKeyName, "");
      var value := data[GeneralSectionName][SelectedWorkItemCheckinActionKeyName];
      if value == "" {
        return Resolve;
      }
      a := ParseAction(value).value;
    }

    method SetSelectedWorkItemCheckinAction(a: CheckinAction)
      modifies this`data
      ensures data == WithCheckinAction(old(data), a)
    {
      EnsureSection(GeneralSectionName);
      EnsureKey(GeneralSectionName, SelectedWorkItemCheckinActionKeyName, "");
      StoreAfterWithKey(old(data), GeneralSectionName, SelectedWorkItemCheckinActionKeyName, "", ActionName(a));
      data := data[GeneralSectionName := data[GeneralSectionName][SelectedWorkItemCheckinActionKeyName := ActionName(a)]];
    }

    method GetSeparator() returns (sep: string)
      modifies this`data
      ensures data == SeparatorTable(old(data))
      ensures sep == SeparatorOf(old(data))
    {
      EnsureSection(GeneralSectionName);
      EnsureKey(GeneralSectionName, SeparatorKeyName, DefaultSeparator);
      sep := data[GeneralSectionName][SeparatorKeyName];
    }

    method SetSeparator(sep: string)
      modifies this`data
      ensures data == WithSeparator(old(data), sep)
    {
      EnsureSection(GeneralSectionName);
      EnsureKey(GeneralSectionName, SeparatorKeyName, DefaultSeparator);
      StoreAfterWithKey(old(data), GeneralSectionName, SeparatorKeyName, DefaultSeparator, sep);
      data := data[GeneralSectionName := data[GeneralSectionName][SeparatorKeyName := sep]];
    }

    method GetMaxCount() returns (n: int)
      requires MaxCountParses(data)
      modifies this`data
      ensures data == MaxCountTable(old(data))
      ensures n == MaxCountOf(old(data))
    {
      EnsureSection(GeneralSectionName);
      EnsureKey(GeneralSectionName, MaxCountKeyName, Text.IntToString(DefaultMaxCount));
      Text.IntRoundTrip(DefaultMaxCount);
      n := Text.ParseInt32(data[GeneralSectionName][MaxCountKeyName]).value;
    }

    method SetMaxCount(n: int)
      requires Text.IsInt32(n)
      modifies this`data
      ensures data == WithMaxCount(old(data), n)
    {
      EnsureSection(GeneralSectionName);
      EnsureKey(GeneralSectionName, MaxCountKeyName, Text.IntToString(DefaultMaxCount));
      StoreAfterWithKey(old(data), GeneralSectionName, MaxCountKeyName, Text.IntToString(DefaultMaxCount), Text.IntToString(n));
      data := data[GeneralSectionName := data[GeneralSectionName][MaxCountKeyName := Text.IntToString(n)]];
    }

    method GetPreviouslySelectedWorkItemsQueries(index: string) returns (queries: seq<string>)
      modifies this`data
      ensures data == QueriesTable(old(data), index)
      ensures queries == QueriesOf(old(data), index)
    {
      EnsureSection(QueriesSectionName);
      EnsureKey(QueriesSectionName, index, "");
      var stored := data[QueriesSectionName][index];
      var sep := GetSeparator();
      queries := Text.Split(stored, sep);
    }

    method SetPreviouslySelectedWorkItemsQueries(index: string, queries: seq<string>)
      modifies this`data
      ensures data == WithQueries(old(data), index, queries)
    {
      EnsureSection(QueriesSectionName);
      EnsureKey(QueriesSectionName, index, "");
      ghost var e := data;
      var sep := GetSeparator();
      assert QueriesSectionName in data;
      StoreAfterWithKey(data, QueriesSectionName, index, "", Text.Join(sep, queries));
      data := data[QueriesSectionName := data[QueriesSectionName][index := Text.Join(sep, queries)]];
    }
  }

  /** The indexer object through which callers read and write query lists by index. */
  class PreviouslySelectedWorkItemsQueriesCollection {
    const settings: TeamPilgrimSettings

    constructor (settings: TeamPilgrimSettings)
      ensures this.settings == settings
    {
      this.settings := settings;
    }

    method Get(index: string) returns (queries: seq<string>)
      modifies settings`data
      ensures settings.data == QueriesTable(old(settings.data), index)
      ensures queries == QueriesOf(old(settings.data), index)
    {
      queries := settings.GetPreviouslySelectedWorkItemsQueries(index);
    }

    method Set(index: string, queries: seq<string>)
      modifies settings`data
      ensures settings.data == WithQueries(old(settings.data), index, queries)
    {
      settings.SetPreviouslySelectedWorkItemsQueries(index, queries);
    }
  }
}
