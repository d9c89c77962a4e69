/** Product search: the case-insensitive substring filter over the catalog and
    the rules that decide, for each search-box event, whether a search runs. */
module Search {
  import opened Text
  import opened Catalog

  /** A search result: the catalog record tagged with its id. */
  datatype Hit = Hit(id: int, product: Product)

  /** The lower-cased name, description or category contains the query. */
  predicate Matches(p: Product, query: string) {
    || Contains(Lower(p.name), query)
    || Contains(Lower(p.description), query)
    || Contains(Lower(p.category), query)
  }

  predicate Ascending(hits: seq<Hit>) {
    forall i, j :: 0 <= i < j < |hits| ==> hits[i].id < hits[j].id
  }

  /** `Object.entries(products)`, each entry tagged with its id, in ascending
      id order. */
  function Entries(): (es: seq<Hit>)
    ensures Ascending(es)
    ensures forall h :: h in es <==> h.id in Products() && h.product == Products()[h.id]
  {
    var ps := Products();
    [Hit(1, ps[1]), Hit(2, ps[2]), Hit(3, ps[3]), Hit(4, ps[4]), Hit(5, ps[5])]
  }

  /** The entries visit the catalog's keys in the order of `Ids`. */
  lemma EntriesInKeyOrder()
    ensures |Entries()| == |Ids()|
    ensures forall i :: 0 <= i < |Ids()| ==> Entries()[i].id == Ids()[i]
  {
  }

  /** The `filter` over the given entries, keeping their order. */
  function Filter(entries: seq<Hit>, query: string): (r: seq<Hit>)
    ensures |r| <= |entries|
    ensures forall h :: h in r <==> h in entries && Matches(h.product, query)
    ensures Ascending(entries) ==> Ascending(r)
  {
    if entries == [] then
      []
    else
      var rest := Filter(entries[1..], query);
      if Matches(entries[0].product, query) then [entries[0]] + rest else rest
  }

  /** `filter` keeps each matching entry as often as it occurs and drops every
      other entry. */
  lemma {:induction false} FilterMultiplicity(entries: seq<Hit>, query: string, h: Hit)
    ensures multiset(Filter(entries, query))[h] ==
      if Matches(h.product, query) then multiset(entries)[h] else 0
  {
    if entries != [] {
      FilterMultiplicity(entries[1..], query, h);
      assert entries == [entries[0]] + entries[1..];
      assert multiset(entries) == multiset([entries[0]]) + multiset(entries[1..]);
    }
  }

  /** `performSearchQuery(query)`: exactly the catalog entries whose name,
      description or category matches, in ascending id order. */
  function SearchQuery(query: string): (r: seq<Hit>)
    ensures forall h :: h in r <==>
      h.id in Products() && h.product == Products()[h.id] && Matches(h.product, query)
    ensures Ascending(r)
    ensures |r| <= 5
  {
    Filter(Entries(), query)
  }

  /** The search-box value as every handler reads it: lower-cased, then trimmed. */
  function Normalize(raw: string): (q: string)
    ensures IsLower(q)
    ensures exists a :: TrimsTo(Lower(raw), q, a)
    ensures q != [] ==> !IsWhitespace(q[0]) && !IsWhitespace(q[|q| - 1])
    ensures q == [] <==> AllWhitespace(raw)
    ensures |q| <= |raw|
  {
    var l := Lower(raw);
    var q := Trim(l);
    assert AllWhitespace(raw) <==> AllWhitespace(l);
    assert IsLower(q) by {
      forall i | 0 <= i < |q| ensures !IsUpper(q[i]) {
        assert q[i] in q;
        var j :| 0 <= j < |l| && l[j] == q[i];
      }
    }
    q
  }

  /** What a search-box event leads to. `AskForTerm` is the warning shown when
      Enter or the search button is used on an empty box. */
  datatype SearchAction = Hide | Ignore | Run(query: string) | AskForTerm

  /** `handleSearchInput`: an empty query hides the results, a one-character
      query does nothing, a longer one is searched for. */
  function OnInput(raw: string): (a: SearchAction)
    ensures a == Hide <==> Normalize(raw) == []
    ensures a == Ignore <==> Utf16Length(Normalize(raw)) == 1
    ensures a.Run? <==> Utf16Length(Normalize(raw)) >= 2
    ensures a.Run? ==> a.query == Normalize(raw)
  {
    var q := Normalize(raw);
    if Utf16Length(q) == 0 then Hide else if Utf16Length(q) < 2 then Ignore else Run(q)
  }

  /** `handleSearchFocus`: searches only a query of two or more characters. */
  function OnFocus(raw: string): (a: SearchAction)
    ensures a.Run? <==> Utf16Length(Normalize(raw)) >= 2
    ensures a.Run? ==> a.query == Normalize(raw)
    ensures !a.Run? ==> a == Ignore
  {
    var q := Normalize(raw);
    if Utf16Length(q) >= 2 then Run(q) else Ignore
  }

  /** `performSearch` (Enter or the search button): any nonempty query is
      searched for; an empty one asks for a search term. */
  function OnSubmit(raw: string): (a: SearchAction)
    ensures a.Run? <==> Normalize(raw) != []
    ensures a.Run? ==> a.query == Normalize(raw)
    ensures !a.Run? ==> a == AskForTerm
  {
    var q := Normalize(raw);
    if q != [] then Run(q) else AskForTerm
  }

  datatype Key = Enter | Escape | OtherKey

  /** `handleSearchKeydown`: Enter submits, Escape hides the results. */
  function OnKeydown(key: Key, raw: string): (a: SearchAction)
    ensures key == Enter ==> a == OnSubmit(raw)
    ensures key == Escape ==> a == Hide
    ensures key == OtherKey ==> a == Ignore
  {
    match key
    case Enter => OnSubmit(raw)
    case Escape => Hide
    case OtherKey => Ignore
  }

  /** A normalised query has no upper-case letter and is a fixed point of
      `Normalize`. */
  lemma NormalizeIdempotent(raw: string)
    ensures Normalize(Normalize(raw)) == Normalize(raw)
    ensures IsLower(Normalize(raw))
  {
    var l := Lower(raw);
    var q := Trim(l);
    LowerOfLower(q);
    TrimIdempotent(l);
  }

  /** Typing clears the results exactly when the box holds only white space. */
  lemma HideIffBlank(raw: string)
    ensures OnInput(raw) == Hide <==> AllWhitespace(raw)
  {
  }

  /** A single character above U+FFFF, such as an emoji, is one character of
      the string but two UTF-16 code units, so typing it runs a search. */
  lemma AstralCharSearched(c: char)
    requires c > '\U{FFFF}'
    ensures |[c]| == 1 && Utf16Length([c]) == 2
    ensures OnInput([c]) == Run([c])
  {
    assert Lower([c]) == [c];
    assert !IsWhitespace(c);
    assert TrimStart([c]) == [c];
    assert TrimEnd([c]) == [c];
  }

  /** Focus searches exactly when typing would, and for the same query; Enter
      or the button searches whatever typing or focus searches, and in
      addition a one-character query, which typing and focus ignore. */
  lemma GatingAgrees(raw: string)
    ensures OnFocus(raw).Run? <==> OnInput(raw).Run?
    ensures OnInput(raw).Run? ==> OnFocus(raw) == OnInput(raw) == OnSubmit(raw)
    ensures Utf16Length(Normalize(raw)) == 1 ==>
      OnInput(raw) == Ignore && OnFocus(raw) == Ignore && OnSubmit(raw) == Run(Normalize(raw))
  {
  }
}
