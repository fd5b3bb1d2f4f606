/**
 * The template list of the main window (src/renderer/src/App.tsx): adding,
 * updating, reordering and deleting templates, the search filter, the list
 * of shortcuts the editor must not reuse, and the navigation around a save.
 */
module App {
  import opened Common
  import opened Strings
  import TemplateEditor

  datatype Tab = Home | Editor | Settings

  /** Lines 117-123: the draft with an id from the clock and both dates set to now. */
  function NewTemplate(d: TemplateEditor.Draft, now: nat): Template
  {
    Template(NatToString(now), d.title, d.content, Some(d.icon), Some(d.shortcut), d.pinned, now, now)
  }

  /** Reopened in the editor, a new template shows the draft it was made from; both dates are its creation time. */
  lemma NewTemplateShowsDraft(d: TemplateEditor.Draft, now: nat)
    ensures TemplateEditor.FormOf(NewTemplate(d, now)) == TemplateEditor.FieldsOf(d)
    ensures NewTemplate(d, now).createdAt == NewTemplate(d, now).updatedAt == now
  {
  }

  /** Templates added at different times get different ids. */
  lemma NewTemplateIdsDistinct(d1: TemplateEditor.Draft, d2: TemplateEditor.Draft, t1: nat, t2: nat)
    requires t1 != t2
    ensures NewTemplate(d1, t1).id != NewTemplate(d2, t2).id
  {
    if NatToString(t1) == NatToString(t2) {
      NatToStringInjective(t1, t2);
    }
  }

  /** `{...t, ...updates, updatedAt: new Date()}` (line 131): id and createdAt survive. */
  function Patch(t: Template, d: TemplateEditor.Draft, now: int): Template
  {
    t.(title := d.title, content := d.content, icon := Some(d.icon), shortcut := Some(d.shortcut), pinned := d.pinned, updatedAt := now)
  }

  /** A re-saved edit keeps the template's identity and creation date, and shows exactly the saved draft. */
  lemma PatchShowsDraft(t: Template, d: TemplateEditor.Draft, now: int)
    ensures Patch(t, d, now).id == t.id && Patch(t, d, now).createdAt == t.createdAt
    ensures TemplateEditor.FormOf(Patch(t, d, now)) == TemplateEditor.FieldsOf(d) && Patch(t, d, now).updatedAt == now
  {
  }

  /**
   * The `templates.map` of lines 129-134: the list keeps its ids and
   * creation dates in place; the templates with the id show the draft, the
   * others are unchanged.
   */
  function UpdateAll(ts: seq<Template>, id: string, d: TemplateEditor.Draft, now: int): (r: seq<Template>)
    ensures |r| == |ts|
    ensures forall i :: 0 <= i < |ts| ==> r[i].id == ts[i].id && r[i].createdAt == ts[i].createdAt
    ensures forall i :: 0 <= i < |ts| && ts[i].id != id ==> r[i] == ts[i]
    ensures forall i :: 0 <= i < |ts| && ts[i].id == id ==>
      TemplateEditor.FormOf(r[i]) == TemplateEditor.FieldsOf(d) && r[i].updatedAt == now
  {
    seq(|ts|, i requires 0 <= i < |ts| => if ts[i].id == id then Patch(ts[i], d, now) else ts[i])
  }

  /** `prev.filter(t => t.id !== id)` (line 146). */
  function DeleteAll(ts: seq<Template>, id: string): (r: seq<Template>)
    ensures |r| <= |ts|
    ensures forall i :: 0 <= i < |r| ==> r[i].id != id
    ensures forall t :: t in r <==> t in ts && t.id != id
    decreases |ts|
  {
    if ts == [] then []
    else DeleteAll(ts[..|ts| - 1], id) + (if ts[|ts| - 1].id != id then [ts[|ts| - 1]] else [])
  }

  /** Deletion keeps list order: it distributes over concatenation. */
  lemma {:induction false} DeleteAllAppend(a: seq<Template>, b: seq<Template>, id: string)
    ensures DeleteAll(a + b, id) == DeleteAll(a, id) + DeleteAll(b, id)
    decreases |b|
  {
    if b == [] {
      assert a + b == a;
    } else {
      assert (a + b)[..|a + b| - 1] == a + b[..|b| - 1];
      DeleteAllAppend(a, b[..|b| - 1], id);
    }
  }

  /** A list without the id is left as it is. */
  lemma {:induction false} DeleteAbsent(ts: seq<Template>, id: string)
    requires forall i :: 0 <= i < |ts| ==> ts[i].id != id
    ensures DeleteAll(ts, id) == ts
    decreases |ts|
  {
    if ts != [] {
      var init, last := ts[..|ts| - 1], ts[|ts| - 1];
      DeleteAbsent(init, id);
      calc {
        DeleteAll(ts, id);
        DeleteAll(init, id) + [last];
        init + [last];
        { assert init + [last] == ts; }
        ts;
      }
    }
  }

  /** The search test of lines 150-153. */
  predicate Matches(t: Template, query: string) {
    Contains(Lower(t.title), Lower(query)) || Contains(Lower(t.content), Lower(query))
  }

  /** `filteredTemplates` */
  function Filtered(ts: seq<Template>, query: string): (r: seq<Template>)
    ensures |r| <= |ts|
    ensures forall t :: t in r <==> t in ts && Matches(t, query)
    decreases |ts|
  {
    if ts == [] then []
    else Filtered(ts[..|ts| - 1], query) + (if Matches(ts[|ts| - 1], query) then [ts[|ts| - 1]] else [])
  }

  /** The search keeps list order and repetitions: it distributes over concatenation. */
  lemma {:induction false} FilteredAppend(a: seq<Template>, b: seq<Template>, query: string)
    ensures Filtered(a + b, query) == Filtered(a, query) + Filtered(b, query)
    decreases |b|
  {
    if b == [] {
      assert a + b == a;
    } else {
      assert (a + b)[..|a + b| - 1] == a + b[..|b| - 1];
      FilteredAppend(a, b[..|b| - 1], query);
    }
  }

  /** One template is kept exactly when it matches. */
  lemma FilteredOne(t: Template, query: string)
    ensures Filtered([t], query) == if Matches(t, query) then [t] else []
  {
    assert [t][..0] == [];
  }

  /** An empty search keeps every template, in order. */
  lemma {:induction false} EmptyQueryKeepsAll(ts: seq<Template>)
    ensures Filtered(ts, "") == ts
    decreases |ts|
  {
    if ts != [] {
      EmptyQueryKeepsAll(ts[..|ts| - 1]);
      EmptyContained(Lower(ts[|ts| - 1].title));
    }
  }

  /** The search ignores ASCII case in the query. */
  lemma QueryCaseIgnored(t: Template, query: string)
    ensures Matches(t, query) == Matches(t, Lower(query))
  {
    assert Lower(Lower(query)) == Lower(query);
  }

  /**
   * `existingShortcuts` (lines 260-262): the non-empty shortcuts of the
   * other templates, in list order. With no template being edited every
   * template counts, since no id equals `undefined`.
   */
  function ExistingShortcuts(ts: seq<Template>, editingId: Option<string>): (r: seq<string>)
    ensures |r| <= |ts|
    ensures forall s :: s in r <==> exists i :: 0 <= i < |ts| && Some(ts[i].id) != editingId && ShortcutOf(ts[i]) == s && s != ""
    decreases |ts|
  {
    if ts == [] then []
    else
      var t := ts[|ts| - 1];
      var rest := ExistingShortcuts(ts[..|ts| - 1], editingId);
      assert forall i :: 0 <= i < |ts| - 1 ==> ts[..|ts| - 1][i] == ts[i];
      rest + (if Some(t.id) != editingId && ShortcutOf(t) != "" then [ShortcutOf(t)] else [])
  }

  /** The template being edited never blocks its own shortcut. */
  lemma OwnShortcutNotBlocked(ts: seq<Template>, id: string)
    requires forall i, j :: 0 <= i < j < |ts| ==> ShortcutOf(ts[i]) != "" ==> ShortcutOf(ts[i]) != ShortcutOf(ts[j])
    requires exists k :: 0 <= k < |ts| && ts[k].id == id && ShortcutOf(ts[k]) != ""
    ensures exists k :: 0 <= k < |ts| && ts[k].id == id && ShortcutOf(ts[k]) !in ExistingShortcuts(ts, Some(id))
  {
    var k :| 0 <= k < |ts| && ts[k].id == id && ShortcutOf(ts[k]) != "";
    forall i | 0 <= i < |ts| && Some(ts[i].id) != Some(id)
      ensures ShortcutOf(ts[i]) != ShortcutOf(ts[k])
    {
      assert i != k;
    }
    assert ShortcutOf(ts[k]) !in ExistingShortcuts(ts, Some(id));
  }

  class AppState {
    var templates: seq<Template>
    var activeTab: Tab
    var editing: Option<Template>

    constructor ()
      ensures templates == [] && activeTab == Home && editing == None
    {
      templates := [];
      activeTab := Home;
      editing := None;
    }

    /** `addTemplate` (lines 117-126): one new template at the end. */
    method AddTemplate(d: TemplateEditor.Draft, now: nat)
      modifies this
      ensures templates == old(templates) + [NewTemplate(d, now)]
      ensures activeTab == old(activeTab) && editing == old(editing)
    {
      var t := Template(NatToString(now), d.title, d.content, Some(d.icon), Some(d.shortcut), d.pinned, now, now);
      templates := templates + [t];
    }

    /** `updateTemplate` (lines 128-138): every template with the id is patched, the rest stay put. */
    method UpdateTemplate(id: string, d: TemplateEditor.Draft, now: int)
      modifies this
      ensures templates == UpdateAll(old(templates), id, d, now)
      ensures activeTab == old(activeTab) && editing == old(editing)
    {
      var updated: seq<Template> := [];
      var i := 0;
      while i < |templates|
        invariant 0 <= i <= |templates|
        invariant templates == old(templates)
        invariant updated == UpdateAll(templates[..i], id, d, now)
      {
        var t := templates[i];
        updated := updated + [if t.id == id then t.(title := d.title, content := d.content, icon := Some(d.icon), shortcut := Some(d.shortcut), pinned := d.pinned, updatedAt := now) else t];
        i := i + 1;
      }
      assert templates[..i] == templates;
      templates := updated;
    }

    /** `reorderTemplates` (lines 140-143): the drag-and-drop result replaces the list. */
    method ReorderTemplates(reordered: seq<Template>)
      modifies this
      ensures templates == reordered && activeTab == old(activeTab) && editing == old(editing)
    {
      templates := reordered;
    }

    /** `deleteTemplate` (lines 145-148). */
    method DeleteTemplate(id: string)
      modifies this
      ensures templates == DeleteAll(old(templates), id)
      ensures activeTab == old(activeTab) && editing == old(editing)
    {
      templates := DeleteAll(templates, id);
    }

    /** `handleEditTemplate` (lines 156-159). */
    method EditTemplate(t: Template)
      modifies this
      ensures editing == Some(t) && activeTab == Editor && templates == old(templates)
    {
      editing := Some(t);
      activeTab := Editor;
    }

    /** `handleNewTemplate` (lines 165-168) */
    method NewTemplateTab()
      modifies this
      ensures editing == None && activeTab == Editor && templates == old(templates)
    {
      editing := None;
      activeTab := Editor;
    }

    /** `handleSaveTemplate` (lines 170-178): update the edited template or add a new one, then go home. */
    method HandleSaveTemplate(d: TemplateEditor.Draft, now: nat)
      modifies this
      ensures old(editing).Some? ==> templates == UpdateAll(old(templates), old(editing).value.id, d, now)
      ensures old(editing).None? ==> templates == old(templates) + [NewTemplate(d, now)]
      ensures activeTab == Home && editing == None
    {
      if editing.Some? {
        UpdateTemplate(editing.value.id, d, now);
      } else {
        AddTemplate(d, now);
      }
      activeTab := Home;
      editing := None;
    }

    /** `handleCancelEdit` (lines 180-183). */
    method CancelEdit()
      modifies this
      ensures activeTab == Home && editing == None && templates == old(templates)
    {
      activeTab := Home;
      editing := None;
    }
  }

  /** Updating leaves every other template identical and the count unchanged. */
  lemma UpdateOnlyTouchesId(ts: seq<Template>, id: string, d: TemplateEditor.Draft, now: int, i: int)
    requires 0 <= i < |ts| && ts[i].id != id
    ensures |UpdateAll(ts, id, d, now)| == |ts| && UpdateAll(ts, id, d, now)[i] == ts[i]
  {
  }

  /** After an update the ids are those of before, in the same order. */
  lemma UpdateKeepsIds(ts: seq<Template>, id: string, d: TemplateEditor.Draft, now: int)
    ensures forall i :: 0 <= i < |ts| ==> UpdateAll(ts, id, d, now)[i].id == ts[i].id
  {
  }
}
