/** The address search box (src/components/Search.tsx): the autocomplete
    options built from the place service's suggestions and the rider's
    current selection, and what picking or clearing an option does. The
    place, geocoding and geolocation services are parameters: their
    answers are inputs here. */
module Search {
  import opened Wrappers
  import opened Models
  import opened Seqs

  /** An autocomplete option. */
  datatype AddressOption = AddressOption(id: string, labelText: string)

  /** A suggestion from the place service. */
  datatype PlacePrediction = PlacePrediction(placeId: string, description: string)

  datatype PlacesStatus = PlacesOk | PlacesNotOk

  /** The component's state that the handlers change. */
  datatype SearchState = SearchState(
    options: seq<AddressOption>, selected: Option<AddressOption>, coords: Option<SearchLocation>)

  /** The option id that stands for the rider's own position. */
  const CurrentLocationId: string := "Current Location"

  function OptionOf(p: PlacePrediction): AddressOption {
    AddressOption(p.placeId, p.description)
  }

  function OptionId(o: AddressOption): string {
    o.id
  }

  /** One option per suggestion, in order. */
  function PredictionOptions(preds: seq<PlacePrediction>): (r: seq<AddressOption>)
    ensures |r| == |preds|
    ensures forall i :: 0 <= i < |preds| ==> r[i].id == preds[i].placeId && r[i].labelText == preds[i].description
  {
    MapSeq(OptionOf, preds)
  }

  function OptionIds(options: seq<AddressOption>): (r: seq<string>)
    ensures |r| == |options|
    ensures forall i :: 0 <= i < |options| ==> r[i] == options[i].id
  {
    MapSeq(OptionId, options)
  }

  /** The options shown: the suggestions, followed by the current selection
      when there is one whose id none of them has. */
  function MergeOptions(list: seq<AddressOption>, selected: Option<AddressOption>): (r: seq<AddressOption>)
    ensures |r| == |list| || |r| == |list| + 1
    ensures r[..|list|] == list
    ensures |r| == |list| + 1 <==> selected.Some? && selected.value.id !in OptionIds(list)
    ensures |r| == |list| + 1 ==> r[|list|] == selected.value
    ensures NoDups(OptionIds(list)) ==> NoDups(OptionIds(r))
  {
    if selected.Some? && selected.value.id !in OptionIds(list) then
      var r := list + [selected.value];
      assert forall i :: 0 <= i < |list| ==> OptionIds(r)[i] == OptionIds(list)[i];
      r
    else
      assert list[..|list|] == list;
      list
  }

  /** The selection is always among the options after a merge. */
  lemma SelectionAlwaysOffered(list: seq<AddressOption>, selected: AddressOption)
    ensures exists o :: o in MergeOptions(list, Some(selected)) && o.id == selected.id
  {
    var r := MergeOptions(list, Some(selected));
    if selected.id in OptionIds(list) {
      var i :| 0 <= i < |list| && OptionIds(list)[i] == selected.id;
      assert r[i] == list[i];
    } else {
      assert r[|list|] == selected;
    }
  }

  /** New suggestions replace the options only when the service answers
      OK with at least one suggestion; the current selection is then
      appended exactly when no suggestion has its id. */
  function HandleInputChange(options: seq<AddressOption>, selected: Option<AddressOption>,
                             status: PlacesStatus, preds: Option<seq<PlacePrediction>>): (r: seq<AddressOption>)
    ensures !(status == PlacesOk && preds.Some? && |preds.value| > 0) ==> r == options
    ensures status == PlacesOk && preds.Some? && |preds.value| > 0 ==>
      |preds.value| <= |r| <= |preds.value| + 1 && r[..|preds.value|] == PredictionOptions(preds.value)
    ensures status == PlacesOk && preds.Some? && |preds.value| > 0 ==>
      (|r| == |preds.value| + 1 <==>
        selected.Some? && forall i :: 0 <= i < |preds.value| ==> preds.value[i].placeId != selected.value.id)
    ensures status == PlacesOk && preds.Some? && |preds.value| > 0 && |r| == |preds.value| + 1 ==>
      r[|preds.value|] == selected.value
  {
    if status == PlacesOk && preds.Some? && |preds.value| > 0 then
      var list := PredictionOptions(preds.value);
      assert forall id :: id in OptionIds(list) <==> exists i :: 0 <= i < |preds.value| && preds.value[i].placeId == id by {
        forall id | id in OptionIds(list) ensures exists i :: 0 <= i < |preds.value| && preds.value[i].placeId == id {
          var i :| 0 <= i < |list| && OptionIds(list)[i] == id;
          assert preds.value[i].placeId == id;
        }
        forall id | exists i :: 0 <= i < |preds.value| && preds.value[i].placeId == id ensures id in OptionIds(list) {
          var i :| 0 <= i < |preds.value| && preds.value[i].placeId == id;
          assert OptionIds(list)[i] == id;
        }
      }
      MergeOptions(list, selected)
    else options
  }

  /** Picking or clearing an option, as written. `currentLocation` is the
      rider's position if geolocation gave one; `geocoded` is the
      geocoder's answer for the picked place id, if any. */
  function HandleSelectLocation(state: SearchState, selection: Option<AddressOption>,
                                currentLocation: Option<SearchLocation>, geocoded: Option<(real, real)>): (r: SearchState)
    ensures selection.None? ==> r == SearchState([], None, None)
    ensures selection.Some? && selection.value.id == CurrentLocationId && currentLocation.Some? ==>
      r == state.(coords := currentLocation)
    ensures selection.Some? && !(selection.value.id == CurrentLocationId && currentLocation.Some?) && geocoded.None? ==>
      r == state
    ensures selection.Some? && !(selection.value.id == CurrentLocationId && currentLocation.Some?) && geocoded.Some? ==>
      r.options == state.options &&
      r.coords == Some(SearchLocation(selection.value.labelText, geocoded.value.0, geocoded.value.1)) &&
      r.selected == Some(AddressOption(selection.value.labelText, selection.value.labelText))
  {
    match selection
    case None => SearchState([], None, None)
    case Some(s) =>
      if s.id == CurrentLocationId && currentLocation.Some? then state.(coords := currentLocation)
      else
        match geocoded
        case None => state
        case Some(point) =>
          state.(coords := Some(SearchLocation(s.labelText, point.0, point.1)),
                 selected := Some(AddressOption(s.labelText, s.labelText)))
  }

  /** After picking a geocoded suggestion, a later answer listing that same
      suggestion still appends the selection, unless some suggestion's
      place id happens to equal the label: the list then holds the place
      twice. */
  lemma PickedPlaceListedTwice(state: SearchState, o: AddressOption, geocoded: (real, real),
                               preds: seq<PlacePrediction>)
    requires o.id != CurrentLocationId
    requires o in PredictionOptions(preds)
    requires forall p :: p in preds ==> p.placeId != o.labelText
    ensures var after := HandleSelectLocation(state, Some(o), None, Some(geocoded));
      var options := HandleInputChange(after.options, after.selected, PlacesOk, Some(preds));
      |options| == |preds| + 1 && options[|preds|].labelText == o.labelText && o in options[..|preds|]
  {
    var list := PredictionOptions(preds);
    forall i | 0 <= i < |list| ensures OptionIds(list)[i] != o.labelText {
      assert preds[i] in preds;
    }
  }

  /** Picking or clearing an option, corrected: the selection keeps the
      picked option's own id. */
  function HandleSelectLocationIntended(state: SearchState, selection: Option<AddressOption>,
                                        currentLocation: Option<SearchLocation>, geocoded: Option<(real, real)>): (r: SearchState)
    ensures selection.None? ==> r == SearchState([], None, None)
    ensures selection.Some? && selection.value.id == CurrentLocationId && currentLocation.Some? ==>
      r == state.(coords := currentLocation)
    ensures selection.Some? && !(selection.value.id == CurrentLocationId && currentLocation.Some?) && geocoded.None? ==>
      r == state
    ensures selection.Some? && !(selection.value.id == CurrentLocationId && currentLocation.Some?) && geocoded.Some? ==>
      r.options == state.options &&
      r.coords == Some(SearchLocation(selection.value.labelText, geocoded.value.0, geocoded.value.1)) &&
      r.selected == selection
  {
    match selection
    case None => SearchState([], None, None)
    case Some(s) =>
      if s.id == CurrentLocationId && currentLocation.Some? then state.(coords := currentLocation)
      else
        match geocoded
        case None => state
        case Some(point) =>
          state.(coords := Some(SearchLocation(s.labelText, point.0, point.1)), selected := Some(s))
  }

  /** With the corrected selection, a later answer listing the picked
      suggestion shows exactly the suggestions. */
  lemma PickedPlaceListedOnce(state: SearchState, o: AddressOption, geocoded: (real, real),
                              preds: seq<PlacePrediction>)
    requires o.id != CurrentLocationId
    requires o in PredictionOptions(preds)
    ensures var after := HandleSelectLocationIntended(state, Some(o), None, Some(geocoded));
      HandleInputChange(after.options, after.selected, PlacesOk, Some(preds)) == PredictionOptions(preds)
  {
    var list := PredictionOptions(preds);
    var i :| 0 <= i < |list| && list[i] == o;
    assert OptionIds(list)[i] == o.id;
  }

  /** Both versions agree on everything but the stored selection's id. */
  lemma SelectionVersionsAgree(state: SearchState, selection: Option<AddressOption>,
                               currentLocation: Option<SearchLocation>, geocoded: Option<(real, real)>)
    ensures var a := HandleSelectLocation(state, selection, currentLocation, geocoded);
      var b := HandleSelectLocationIntended(state, selection, currentLocation, geocoded);
      a.options == b.options && a.coords == b.coords &&
      (a.selected.Some? <==> b.selected.Some?) &&
      (a.selected.Some? ==> a.selected.value.labelText == b.selected.value.labelText)
  {
  }
}
