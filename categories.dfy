/**
 * The fixed category table: for each category name an icon and a colour, kept
 * in the order the table lists them, with lookups that fall back to a default
 * for a name the table does not hold.
 */
module Categories {
  import opened Wrappers

  datatype CategoryConfig = CategoryConfig(name: string, icon: string, color: string)

  /** `CATEGORY_CONFIG`, key by key in declaration order. */
  const CategoryTable: seq<(string, CategoryConfig)> := [
    ("식비", CategoryConfig("식비", "🍚", "#4f46e5")),
    ("카페", CategoryConfig("카페", "☕", "#ec4899")),
    ("외식", CategoryConfig("외식", "🍽️", "#8b5cf6")),
    ("교통", CategoryConfig("교통", "🚌", "#06b6d4")),
    ("쇼핑", CategoryConfig("쇼핑", "🛍️", "#10b981")),
    ("생활", CategoryConfig("생활", "🏠", "#f59e0b")),
    ("주거/통신", CategoryConfig("주거/통신", "📱", "#ef4444")),
    ("의료/건강", CategoryConfig("의료/건강", "💊", "#6366f1")),
    ("미용", CategoryConfig("미용", "💇", "#14b8a6")),
    ("금융", CategoryConfig("금융", "💰", "#f97316")),
    ("문화/여가", CategoryConfig("문화/여가", "🎬", "#a855f7")),
    ("교육/학습", CategoryConfig("교육/학습", "📚", "#84cc16")),
    ("자녀/육아", CategoryConfig("자녀/육아", "👶", "#db2777")),
    ("반려동물", CategoryConfig("반려동물", "🐾", "#059669")),
    ("경조사/선물", CategoryConfig("경조사/선물", "🎁", "#d97706")),
    ("기타", CategoryConfig("기타", "🎸", "#64748b"))
  ]

  const DefaultColor: string := "#94a3b8"
  const DefaultIcon: string := "\U{1F3F7}\U{FE0F}"

  /** The configuration stored under `key`: the first entry with that key. */
  function Find(entries: seq<(string, CategoryConfig)>, key: string): (r: Option<CategoryConfig>)
    ensures r.None? <==> forall k :: 0 <= k < |entries| ==> entries[k].0 != key
    ensures r.Some? ==> exists k :: 0 <= k < |entries| && entries[k] == (key, r.value)
  {
    if entries == [] then None
    else if entries[0].0 == key then Some(entries[0].1)
    else Find(entries[1..], key)
  }

  predicate KeysDistinct(entries: seq<(string, CategoryConfig)>)
  {
    forall j, k :: 0 <= j < k < |entries| ==> entries[j].0 != entries[k].0
  }

  /** With distinct keys, looking up an entry's key finds that entry. */
  lemma {:induction false} FindEntry(entries: seq<(string, CategoryConfig)>, k: nat)
    requires KeysDistinct(entries) && k < |entries|
    ensures Find(entries, entries[k].0) == Some(entries[k].1)
  {
    if k > 0 {
      assert entries[0].0 != entries[k].0;
      assert entries[1..][k - 1] == entries[k];
      FindEntry(entries[1..], k - 1);
    }
  }

  /** The table has 16 entries, with distinct keys, each entry named after its key. */
  lemma TableWellFormed()
    ensures |CategoryTable| == 16
    ensures KeysDistinct(CategoryTable)
    ensures forall k :: 0 <= k < |CategoryTable| ==> CategoryTable[k].1.name == CategoryTable[k].0
  {
  }

  /**
   * `CATEGORIES = Object.values(CATEGORY_CONFIG)`: every configured name listed
   * once, in table order, each with the configuration a lookup of its name finds.
   */
  function Categories(): (cs: seq<CategoryConfig>)
    ensures |cs| == |CategoryTable|
    ensures forall k :: 0 <= k < |cs| ==> cs[k].name == CategoryTable[k].0
    ensures forall k :: 0 <= k < |cs| ==> Find(CategoryTable, cs[k].name) == Some(cs[k])
    ensures forall j, k :: 0 <= j < k < |cs| ==> cs[j].name != cs[k].name
  {
    TableWellFormed();
    var cs := seq(|CategoryTable|, k requires 0 <= k < |CategoryTable| => CategoryTable[k].1);
    assert forall k :: 0 <= k < |cs| ==> Find(CategoryTable, cs[k].name) == Some(cs[k]) by {
      forall k | 0 <= k < |cs| ensures Find(CategoryTable, cs[k].name) == Some(cs[k]) {
        FindEntry(CategoryTable, k);
      }
    }
    cs
  }

  /** `getCategoryColor`: the configured colour, or the slate default for an unknown name. */
  function GetCategoryColor(name: string): (c: string)
    ensures (forall k :: 0 <= k < |CategoryTable| ==> CategoryTable[k].0 != name) ==> c == DefaultColor
    ensures forall k :: 0 <= k < |CategoryTable| && CategoryTable[k].0 == name ==> c == CategoryTable[k].1.color
  {
    TableWellFormed();
    forall k | 0 <= k < |CategoryTable|
      ensures Find(CategoryTable, CategoryTable[k].0) == Some(CategoryTable[k].1)
    {
      FindEntry(CategoryTable, k);
    }
    match Find(CategoryTable, name)
    case Some(config) => if config.color != "" then config.color else DefaultColor
    case None => DefaultColor
  }

  /** `getCategoryIcon`: the configured icon, or the tag default for an unknown name. */
  function GetCategoryIcon(name: string): (i: string)
    ensures (forall k :: 0 <= k < |CategoryTable| ==> CategoryTable[k].0 != name) ==> i == DefaultIcon
    ensures forall k :: 0 <= k < |CategoryTable| && CategoryTable[k].0 == name ==> i == CategoryTable[k].1.icon
  {
    TableWellFormed();
    forall k | 0 <= k < |CategoryTable|
      ensures Find(CategoryTable, CategoryTable[k].0) == Some(CategoryTable[k].1)
    {
      FindEntry(CategoryTable, k);
    }
    match Find(CategoryTable, name)
    case Some(config) => if config.icon != "" then config.icon else DefaultIcon
    case None => DefaultIcon
  }

  /** A listed category shows its own colour and icon wherever it is drawn, never a default. */
  lemma CategoryMatchesLookups(k: nat)
    requires k < |Categories()|
    ensures GetCategoryColor(Categories()[k].name) == Categories()[k].color
    ensures GetCategoryIcon(Categories()[k].name) == Categories()[k].icon
  {
    var cs := Categories();
    assert CategoryTable[k].0 == cs[k].name;
    TableWellFormed();
  }
}
