/** The place finder page of the Next.js client: the client-side filter over
    the fetched places (search text, place types, features), the list of
    place types offered as filters, and the filter checkboxes. */
module PlacesPage {
  import opened Common
  import opened Sorting

  /** The fields of a fetched place the page reads. */
  datatype PlaceCard = PlaceCard(name: string, description: Option<string>, address: string,
                                 placeType: string, featureIds: seq<nat>)

  /** The filter state: the search box and the two checkbox lists. */
  datatype Filters = Filters(searchTerm: string, selectedTypes: seq<string>, selectedFeatures: seq<nat>)

  /** `matchesSearch`: an empty term matches; otherwise the lower-cased term
      occurs in the name, in the description when there is one, or in the
      address. */
  predicate MatchesSearch(p: PlaceCard, term: string)
  {
    || term == ""
    || Includes(Lower(p.name), Lower(term))
    || (p.description.Some? && Includes(Lower(p.description.value), Lower(term)))
    || Includes(Lower(p.address), Lower(term))
  }

  /** `matchesType` */
  predicate MatchesType(p: PlaceCard, types: seq<string>)
  {
    |types| == 0 || p.placeType in types
  }

  /** `matchesFeatures`: every selected feature is one of the place's. */
  predicate MatchesFeatures(p: PlaceCard, selected: seq<nat>)
  {
    |selected| == 0 || forall i :: 0 <= i < |selected| ==> selected[i] in p.featureIds
  }

  function Visible(f: Filters): PlaceCard -> bool
  {
    (p: PlaceCard) => MatchesSearch(p, f.searchTerm) && MatchesType(p, f.selectedTypes)
                      && MatchesFeatures(p, f.selectedFeatures)
  }

  /** `filteredPlaces`: the places passing all three tests, in their order. */
  function FilteredPlaces(places: seq<PlaceCard>, f: Filters): (r: seq<PlaceCard>)
    ensures forall p :: p in r <==> p in places && MatchesSearch(p, f.searchTerm)
                                    && MatchesType(p, f.selectedTypes) && MatchesFeatures(p, f.selectedFeatures)
    ensures forall p :: multiset(r)[p] == if Visible(f)(p) then multiset(places)[p] else 0
  {
    Filter(places, Visible(f))
  }

  /** The filter keeps the order of the places: filtering a concatenation
      is the concatenation of the filtered parts. */
  lemma FilteredPlacesKeepOrder(a: seq<PlaceCard>, b: seq<PlaceCard>, f: Filters)
    ensures FilteredPlaces(a + b, f) == FilteredPlaces(a, f) + FilteredPlaces(b, f)
  {
    FilterAppend(a, b, Visible(f));
  }

  /** With nothing typed and nothing checked every place is shown, in order. */
  lemma NoFiltersShowAll(places: seq<PlaceCard>)
    ensures FilteredPlaces(places, Filters("", [], [])) == places
  {
    FilterAll(places, Visible(Filters("", [], [])));
  }

  /** A non-empty term matches exactly when it occurs somewhere in the
      lower-cased name, description or address. */
  lemma SearchIffOccurs(p: PlaceCard, term: string)
    requires term != ""
    ensures MatchesSearch(p, term) <==>
              || (exists i :: OccursAt(Lower(p.name), Lower(term), i))
              || (p.description.Some? && exists i :: OccursAt(Lower(p.description.value), Lower(term), i))
              || (exists i :: OccursAt(Lower(p.address), Lower(term), i))
  {
    IncludesIffSubstring(Lower(p.name), Lower(term));
    IncludesIffSubstring(Lower(p.address), Lower(term));
    if p.description.Some? {
      IncludesIffSubstring(Lower(p.description.value), Lower(term));
    }
  }

  /** Selected features are conjunctive: adding one can only hide places. */
  lemma MoreFeaturesFewerPlaces(p: PlaceCard, selected: seq<nat>, extra: nat)
    requires MatchesFeatures(p, selected + [extra])
    ensures MatchesFeatures(p, selected)
    ensures extra in p.featureIds
  {
    var s := selected + [extra];
    assert s[|s| - 1] == extra;
    forall i | 0 <= i < |selected| ensures selected[i] in p.featureIds {
      assert s[i] == selected[i];
    }
  }

  /** `Array.from(new Set(xs))`: the first occurrence of each value, in order. */
  function Dedup<T(==,!new)>(xs: seq<T>): (r: seq<T>)
    ensures forall x :: x in r <==> x in xs
    ensures Distinct(r)
    decreases |xs|
  {
    if xs == [] then []
    else
      var rest := Dedup(xs[..|xs| - 1]);
      if xs[|xs| - 1] in rest then rest
      else
        var r := rest + [xs[|xs| - 1]];
        assert forall i :: 0 <= i < |rest| ==> r[i] == rest[i];
        r
  }

  function Types(places: seq<PlaceCard>): (r: seq<string>)
    ensures |r| == |places|
    ensures forall i :: 0 <= i < |places| ==> r[i] == places[i].placeType
  {
    seq(|places|, i requires 0 <= i < |places| => places[i].placeType)
  }

  /** `placeTypes`: each place type once, in ascending order. */
  function PlaceTypes(places: seq<PlaceCard>): (r: seq<string>)
    ensures Sorted(r, StringLe)
  {
    StringLeIsTotalPreorder();
    Sort(Dedup(Types(places)), StringLe)
  }

  /** The type filters offered are exactly the types of the places, each
      once, in strictly ascending order. */
  lemma PlaceTypesExact(places: seq<PlaceCard>)
    ensures var r := PlaceTypes(places);
            && (forall t :: t in r <==> exists p :: p in places && p.placeType == t)
            && Distinct(r)
            && (forall i, j :: 0 <= i < j < |r| ==> StringLe(r[i], r[j]) && r[i] != r[j])
  {
    var ts := Types(places);
    var d := Dedup(ts);
    StringLeIsTotalPreorder();
    var r := Sort(d, StringLe);
    SortKeepsMembers(d, StringLe);
    PermutationKeepsDistinct(d, r);
    forall t ensures t in r <==> exists p :: p in places && p.placeType == t {
      if t in r {
        var i :| 0 <= i < |ts| && ts[i] == t;
        assert places[i] in places;
      }
      if exists p :: p in places && p.placeType == t {
        var p :| p in places && p.placeType == t;
        var i :| 0 <= i < |places| && places[i] == p;
        assert ts[i] == t;
      }
    }
  }

  /** A type checkbox: checking appends the type, unchecking removes every
      occurrence of it. */
  function ToggleType(f: Filters, t: string, checked: bool): (g: Filters)
    ensures g.searchTerm == f.searchTerm && g.selectedFeatures == f.selectedFeatures
    ensures checked ==> g.selectedTypes == f.selectedTypes + [t]
    ensures !checked ==> t !in g.selectedTypes
    ensures forall u :: u != t ==> (u in g.selectedTypes <==> u in f.selectedTypes)
  {
    if checked then f.(selectedTypes := f.selectedTypes + [t])
    else f.(selectedTypes := Without(f.selectedTypes, t))
  }

  /** A feature checkbox: checking appends the feature, unchecking removes
      every occurrence of it. */
  function ToggleFeature(f: Filters, id: nat, checked: bool): (g: Filters)
    ensures g.searchTerm == f.searchTerm && g.selectedTypes == f.selectedTypes
    ensures checked ==> g.selectedFeatures == f.selectedFeatures + [id]
    ensures !checked ==> id !in g.selectedFeatures
    ensures forall u :: u != id ==> (u in g.selectedFeatures <==> u in f.selectedFeatures)
  {
    if checked then f.(selectedFeatures := f.selectedFeatures + [id])
    else f.(selectedFeatures := Without(f.selectedFeatures, id))
  }

  /** "Reset Filters": both checkbox lists emptied, the search kept. */
  function ResetFilters(f: Filters): (g: Filters)
    ensures g.searchTerm == f.searchTerm && g.selectedTypes == [] && g.selectedFeatures == []
  {
    Filters(f.searchTerm, [], [])
  }

  /** After a reset only the search term decides what is shown. */
  lemma ResetLeavesSearchOnly(places: seq<PlaceCard>, f: Filters)
    ensures forall p :: p in FilteredPlaces(places, ResetFilters(f)) <==> p in places && MatchesSearch(p, f.searchTerm)
  {
  }

  /** "Clear search & filters", offered when nothing is shown: the search and
      both checkbox lists emptied. */
  function ClearSearchAndFilters(f: Filters): Filters
  {
    Filters("", [], [])
  }

  /** After clearing everything every place is shown again, in order. */
  lemma ClearShowsAll(places: seq<PlaceCard>, f: Filters)
    ensures FilteredPlaces(places, ClearSearchAndFilters(f)) == places
  {
    NoFiltersShowAll(places);
  }

  /** Checking a type and unchecking it again gives back the selection
      without that type. */
  lemma CheckThenUncheckType(f: Filters, t: string)
    ensures ToggleType(ToggleType(f, t, true), t, false).selectedTypes == Without(f.selectedTypes, t)
  {
    WithoutAppend(f.selectedTypes, t, t);
  }
}
