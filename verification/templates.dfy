/**
  The template service: product recipes (a name plus a parts list),
  their soft deletion, the active listing, and the availability check
  that tells whether a product could be stamped out of a template now.
 */
module Templates {
  import opened Wrappers
  import opened Inventory
  import opened Availability
  import opened Listing

  /** The fields an update may supply; `None` leaves the field as it is. */
  datatype TemplatePatch = TemplatePatch(
    name: Option<string>,
    description: Option<string>,
    active: Option<bool>,
    partsList: Option<seq<TemplateLine>>)

  /** What the availability check answers. */
  datatype AvailabilityReport = AvailabilityReport(canCreate: bool, shortages: seq<Shortage>)

  /** Creates an active template and, in the same transaction, its parts list; a line naming a missing part rolls both back. */
  function CreateTemplate(s: Store, name: string, description: Option<string>,
                          partsList: Option<seq<TemplateLine>>, newId: TemplateId): (r: Outcome<(Store, TemplateId)>)
    requires newId !in s.templates && newId !in s.templateParts
    ensures var lines := partsList.GetOr([]);
      && (r.Err? <==> !PartsExist(s, lines))
      && (r.Err? ==> r.error == StoreRejected)
    ensures r.Ok? ==>
      var (t, id) := r.value;
      && id == newId
      && t.templates.Keys == s.templates.Keys + {id}
      && t.templates[id] == Template(name, description, true)
      && (forall x :: x in s.templates ==> t.templates[x] == s.templates[x])
      && LinesOf(t, id) == partsList.GetOr([])
      && (forall x :: x != id ==> LinesOf(t, x) == LinesOf(s, x))
      && t == s.(templates := t.templates, templateParts := t.templateParts)
  {
    var lines := partsList.GetOr([]);
    if !PartsExist(s, lines) then Err(StoreRejected)
    else
      var t := s.(templates := s.templates[newId := Template(name, description, true)]);
      // the parts rows are written only for a non-empty list
      if lines == [] then Ok((t, newId))
      else Ok((t.(templateParts := s.templateParts[newId := lines]), newId))
  }

  /** The template row and its parts list; an unknown id is a 404. */
  function GetTemplateById(s: Store, id: TemplateId): (r: Outcome<(Template, seq<TemplateLine>)>)
    ensures id !in s.templates <==> r == Err(NotFound)
    ensures r.Err? ==> r == Err(NotFound)
    ensures r.Ok? ==> r.value.0 == s.templates[id] && r.value.1 == LinesOf(s, id)
  {
    if id !in s.templates then Err(NotFound) else Ok((s.templates[id], LinesOf(s, id)))
  }

  /** The template row after an update: supplied fields replace, absent ones stay. */
  function Patched(t: Template, patch: TemplatePatch): (u: Template)
    ensures u.name == patch.name.GetOr(t.name)
    ensures u.description == (if patch.description.Some? then patch.description else t.description)
    ensures u.active == patch.active.GetOr(t.active)
  {
    Template(patch.name.GetOr(t.name),
             if patch.description.Some? then patch.description else t.description,
             patch.active.GetOr(t.active))
  }

  /**
    Updates a template. A supplied parts list, even an empty one, replaces
    the old list wholesale; without one the list is untouched. Updating a
    missing row, or a list naming a missing part, is refused and rolls the
    whole update back.
   */
  function UpdateTemplate(s: Store, id: TemplateId, patch: TemplatePatch): (r: Outcome<Store>)
    ensures r.Err? <==> id !in s.templates || (patch.partsList.Some? && !PartsExist(s, patch.partsList.value))
    ensures r.Err? ==> r.error == StoreRejected
    ensures r.Ok? ==>
      var t := r.value;
      && t.templates == s.templates[id := Patched(s.templates[id], patch)]
      && LinesOf(t, id) == (if patch.partsList.Some? then patch.partsList.value else LinesOf(s, id))
      && (forall x :: x != id ==> LinesOf(t, x) == LinesOf(s, x))
      && t == s.(templates := t.templates, templateParts := t.templateParts)
  {
    if id !in s.templates then Err(StoreRejected)
    else if patch.partsList.Some? && !PartsExist(s, patch.partsList.value) then Err(StoreRejected)
    else
      var t := s.(templates := s.templates[id := Patched(s.templates[id], patch)]);
      if patch.partsList.Some? then Ok(t.(templateParts := s.templateParts[id := patch.partsList.value]))
      else Ok(t)
  }

  /** Soft-deletes a template: only its active flag changes. */
  function DeleteTemplate(s: Store, id: TemplateId): (r: Outcome<Store>)
    ensures id !in s.templates <==> r == Err(StoreRejected)
    ensures r.Err? ==> r == Err(StoreRejected)
    ensures r.Ok? ==>
      && r.value.templates.Keys == s.templates.Keys
      && !r.value.templates[id].active
      && r.value.templates[id].name == s.templates[id].name
      && r.value.templates[id].description == s.templates[id].description
      && (forall x :: x in s.templates && x != id ==> r.value.templates[x] == s.templates[x])
      && r.value == s.(templates := r.value.templates)
  {
    if id !in s.templates then Err(StoreRejected)
    else Ok(s.(templates := s.templates[id := s.templates[id].(active := false)]))
  }

  /** The listing view of the template table. */
  function TemplateEntries(s: Store): map<nat, Entry> {
    map x | x in s.templates :: Entry(s.templates[x].name, s.templates[x].active)
  }

  /** The active templates, ordered by name. */
  method GetAllTemplates(s: Store) returns (ids: seq<TemplateId>)
    ensures forall x :: x in ids <==> x in s.templates && s.templates[x].active
    ensures Distinct(ids)
    ensures forall i, j :: 0 <= i < j < |ids| ==> NameLe(s.templates[ids[i]].name, s.templates[ids[j]].name)
  {
    var entries := TemplateEntries(s);
    ids := ListActive(entries);
    forall i, j | 0 <= i < j < |ids|
      ensures NameLe(s.templates[ids[i]].name, s.templates[ids[j]].name)
    {
      assert NameLe(NameOf(entries, ids[i]), NameOf(entries, ids[j]));
    }
  }

  /**
    Checks every line of a template against its balance, in template
    order, and reports each short line; a product can be created exactly
    when nothing is short.
   */
  method CheckTemplateAvailability(s: Store, id: TemplateId) returns (r: Outcome<AvailabilityReport>)
    ensures id !in s.templates <==> r == Err(NotFound)
    ensures r.Err? ==> r == Err(NotFound)
    ensures r.Ok? ==> r.value.shortages == Shortages(LinesOf(s, id), s.parts, s.balances)
    ensures r.Ok? ==> (r.value.canCreate <==>
      forall i :: 0 <= i < |LinesOf(s, id)| ==> !IsShort(s.balances, LinesOf(s, id)[i].partId, LinesOf(s, id)[i].quantity))
  {
    var found := GetTemplateById(s, id);
    if found.Err? {
      return Err(found.error);
    }
    var shortages := CollectShortages(found.value.1, s.parts, s.balances);
    NoShortagesIffCovered(found.value.1, s.parts, s.balances);
    return Ok(AvailabilityReport(|shortages| == 0, shortages));
  }
}
