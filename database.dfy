/**
 * The template store of database.py: an append-only, insertion-ordered table of
 * templates, and the first-match search over it.
 *
 * A template is a flat string map whose key "name" is its display name and whose
 * other keys are field names mapped to the expected type label. A candidate field
 * set is a string map as well; its values are compared with the template's labels
 * literally.
 */
module Database {
  import opened Wrappers

  type Template = map<string, string>

  /** The reserved key of a template: its display name, never compared. */
  const NameKey := "name"

  /** The comprehension at the head of the search: the template without its name. */
  function TemplateFields(template: Template): (r: map<string, string>)
    ensures r.Keys == template.Keys - {NameKey}
    ensures forall k :: k in r ==> r[k] == template[k]
  {
    map k | k in template && k != NameKey :: template[k]
  }

  /** Every field of the template occurs in the candidate with the same value; extra candidate keys are allowed. */
  predicate Matches(template: Template, fields: map<string, string>) {
    forall k :: k in TemplateFields(template) ==> k in fields && fields[k] == TemplateFields(template)[k]
  }

  /** The index of the first template in store order that the candidate matches. */
  function FirstMatch(templates: seq<Template>, fields: map<string, string>): (r: Option<nat>)
    ensures r.Some? ==> && r.value < |templates| && Matches(templates[r.value], fields)
                        && forall j :: 0 <= j < r.value ==> !Matches(templates[j], fields)
    ensures r.None? ==> forall j :: 0 <= j < |templates| ==> !Matches(templates[j], fields)
  {
    if templates == [] then None
    else if Matches(templates[0], fields) then Some(0)
    else match FirstMatch(templates[1..], fields)
      case None => None
      case Some(i) => Some(i + 1)
  }

  /** The template find_matching_template returns: the first match, or None. */
  function MatchingTemplate(templates: seq<Template>, fields: map<string, string>): Option<Template> {
    match FirstMatch(templates, fields)
    case None => None
    case Some(i) => Some(templates[i])
  }

  class FormTemplateDB {
    /** The templates table, in insertion order. */
    var templates: seq<Template>

    /** Opens the store over whatever the table already holds. */
    constructor (stored: seq<Template>)
      ensures templates == stored
    {
      templates := stored;
    }

    /** add_template */
    method AddTemplate(template: Template)
      modifies this
      ensures templates == old(templates) + [template]
    {
      templates := templates + [template];
    }

    /** get_all_templates */
    method GetAllTemplates() returns (all: seq<Template>)
      ensures all == templates
    {
      all := templates;
    }

    /** find_matching_template */
    method FindMatchingTemplate(fields: map<string, string>) returns (r: Option<Template>)
      ensures r == MatchingTemplate(templates, fields)
      ensures r.None? <==> forall j :: 0 <= j < |templates| ==> !Matches(templates[j], fields)
      ensures r.Some? ==> exists i :: && 0 <= i < |templates| && r.value == templates[i]
                                      && Matches(templates[i], fields)
                                      && forall j :: 0 <= j < i ==> !Matches(templates[j], fields)
    {
      var all := GetAllTemplates();
      var i := 0;
      while i < |all|
        invariant 0 <= i <= |all|
        invariant forall j :: 0 <= j < i ==> !Matches(all[j], fields)
      {
        var template := all[i];
        var templateFields := TemplateFields(template);
        var matched := true;
        var pending := templateFields.Keys;
        while pending != {}
          invariant pending <= templateFields.Keys
          invariant matched
          invariant forall k :: k in templateFields.Keys - pending ==> k in fields && fields[k] == templateFields[k]
          decreases pending
        {
          var fieldName :| fieldName in pending;
          if fieldName !in fields || fields[fieldName] != templateFields[fieldName] {
            matched := false;
            break;
          }
          pending := pending - {fieldName};
        }
        if matched {
          FirstMatchAt(all, fields, i);
          return Some(template);
        }
        i := i + 1;
      }
      FirstMatchNone(all, fields);
      return None;
    }
  }

  /** If template i matches and none before it does, the search stops at i. */
  lemma FirstMatchAt(templates: seq<Template>, fields: map<string, string>, i: nat)
    requires i < |templates| && Matches(templates[i], fields)
    requires forall j :: 0 <= j < i ==> !Matches(templates[j], fields)
    ensures FirstMatch(templates, fields) == Some(i)
  {
  }

  lemma FirstMatchNone(templates: seq<Template>, fields: map<string, string>)
    requires forall j :: 0 <= j < |templates| ==> !Matches(templates[j], fields)
    ensures FirstMatch(templates, fields) == None
  {
  }

  /** g holds every key of f with the same value, and possibly more. */
  predicate Extends(g: map<string, string>, f: map<string, string>) {
    forall k :: k in f ==> k in g && g[k] == f[k]
  }

  // ---------------------------------------------------------------------------
  // The reserved name key
  // ---------------------------------------------------------------------------

  /** The candidate's own "name" entry, present, absent or different, never affects a match. */
  lemma CandidateNameIgnored(template: Template, fields: map<string, string>, v: string)
    ensures Matches(template, fields) <==> Matches(template, fields[NameKey := v])
    ensures Matches(template, fields) <==> Matches(template, fields - {NameKey})
  {
  }

  /** Nor does the template's display name. */
  lemma TemplateNameIgnored(template: Template, fields: map<string, string>, v: string)
    ensures Matches(template, fields) <==> Matches(template[NameKey := v], fields)
    ensures Matches(template, fields) <==> Matches(template - {NameKey}, fields)
  {
    assert TemplateFields(template[NameKey := v]) == TemplateFields(template);
    assert TemplateFields(template - {NameKey}) == TemplateFields(template);
  }

  // ---------------------------------------------------------------------------
  // Subset matching
  // ---------------------------------------------------------------------------

  /** Extra candidate keys never break a match. */
  lemma SupersetTolerance(template: Template, fields: map<string, string>, more: map<string, string>)
    requires Matches(template, fields) && Extends(more, fields)
    ensures Matches(template, more)
  {
  }

  /** Extending the candidate can only move the first match earlier in store order, never lose it. */
  lemma FirstMatchSuperset(templates: seq<Template>, fields: map<string, string>, more: map<string, string>)
    requires FirstMatch(templates, fields).Some? && Extends(more, fields)
    ensures FirstMatch(templates, more).Some?
    ensures FirstMatch(templates, more).value <= FirstMatch(templates, fields).value
  {
    var i := FirstMatch(templates, fields).value;
    SupersetTolerance(templates[i], fields, more);
  }

  /** Dropping a required field or changing its value makes the template fail. */
  lemma RequiredField(template: Template, fields: map<string, string>, k: string, v: string)
    requires k in template && k != NameKey
    ensures !Matches(template, fields - {k})
    ensures v != template[k] ==> !Matches(template, fields[k := v])
  {
    assert k in TemplateFields(template);
  }

  /** A template matches the empty candidate exactly when it has no field besides its name. */
  lemma EmptyCandidate(template: Template)
    ensures Matches(template, map[]) <==> template.Keys <= {NameKey}
  {
    if !(template.Keys <= {NameKey}) {
      var k :| k in template.Keys && k != NameKey;
      assert k in TemplateFields(template);
    }
  }

  /** A template with no field besides its name matches every candidate. */
  lemma NameOnlyMatchesAll(template: Template, fields: map<string, string>)
    requires template.Keys <= {NameKey}
    ensures Matches(template, fields)
  {
    assert TemplateFields(template) == map[];
  }

  /** An empty candidate finds nothing unless the store holds a template with no fields. */
  lemma EmptyCandidateSearch(templates: seq<Template>)
    ensures FirstMatch(templates, map[]).Some? <==> exists i :: 0 <= i < |templates| && templates[i].Keys <= {NameKey}
  {
    forall i | 0 <= i < |templates| ensures Matches(templates[i], map[]) <==> templates[i].Keys <= {NameKey} {
      EmptyCandidate(templates[i]);
    }
  }

  // ---------------------------------------------------------------------------
  // Store order
  // ---------------------------------------------------------------------------

  /** Appending a template never changes an existing first match; it can only fill a miss. */
  lemma FirstMatchAppend(templates: seq<Template>, template: Template, fields: map<string, string>)
    ensures FirstMatch(templates + [template], fields) ==
              if FirstMatch(templates, fields).Some? then FirstMatch(templates, fields)
              else if Matches(template, fields) then Some(|templates|)
              else None
  {
    var ts := templates + [template];
    assert forall j :: 0 <= j < |templates| ==> ts[j] == templates[j];
    match FirstMatch(templates, fields)
    case Some(i) =>
      FirstMatchAt(ts, fields, i);
    case None =>
      if Matches(template, fields) {
        FirstMatchAt(ts, fields, |templates|);
      } else {
        FirstMatchNone(ts, fields);
      }
  }

  /** The template returned belongs to the store and is matched by the candidate. */
  lemma MatchingTemplateSound(templates: seq<Template>, fields: map<string, string>)
    ensures MatchingTemplate(templates, fields).Some? ==>
              MatchingTemplate(templates, fields).value in templates && Matches(MatchingTemplate(templates, fields).value, fields)
  {
  }

  // ---------------------------------------------------------------------------
  // The store of test_app.py
  // ---------------------------------------------------------------------------

  const UserData: Template := map["name" := "Данные пользователя", "login" := "email", "tel" := "phone"]
  const OrderForm: Template :=
    map["name" := "Форма заказа", "customer" := "text", "order_id" := "text", "дата_заказа" := "date", "contact" := "phone"]
  const Probe: Template := map["name" := "Проба", "f_name1" := "email", "f_name2" := "date"]

  lemma OrderFormExample()
    ensures MatchingTemplate([UserData, OrderForm, Probe],
                             map["customer" := "text", "order_id" := "text", "дата_заказа" := "date", "contact" := "phone"])
            == Some(OrderForm)
  {
    var ts := [UserData, OrderForm, Probe];
    var order := map["customer" := "text", "order_id" := "text", "дата_заказа" := "date", "contact" := "phone"];
    assert "login" in TemplateFields(UserData) && "login" !in order;
    FirstMatchAt(ts, order, 1);
  }

  lemma UserDataExample()
    ensures MatchingTemplate([UserData, OrderForm, Probe], map["login" := "email", "tel" := "phone"]) == Some(UserData)
  {
    FirstMatchAt([UserData, OrderForm, Probe], map["login" := "email", "tel" := "phone"], 0);
  }

  lemma ProbeExample()
    ensures MatchingTemplate([UserData, OrderForm, Probe], map["f_name1" := "email", "f_name2" := "date"]) == Some(Probe)
  {
    var ts := [UserData, OrderForm, Probe];
    var probe := map["f_name1" := "email", "f_name2" := "date"];
    assert "login" in TemplateFields(UserData) && "login" !in probe;
    assert "contact" in TemplateFields(OrderForm) && "contact" !in probe;
    FirstMatchAt(ts, probe, 2);
  }

  lemma ExtraFieldsExample()
    ensures MatchingTemplate([UserData, OrderForm, Probe],
                             map["login" := "email", "tel" := "phone", "extra_field" := "text", "another_extra" := "date"])
            == Some(UserData)
  {
    FirstMatchAt([UserData, OrderForm, Probe],
                 map["login" := "email", "tel" := "phone", "extra_field" := "text", "another_extra" := "date"], 0);
  }

  lemma NoMatchExamples()
    ensures MatchingTemplate([UserData, OrderForm, Probe], map["customer" := "text"]) == None
    ensures MatchingTemplate([UserData, OrderForm, Probe], map["login" := "text", "tel" := "phone"]) == None
    ensures MatchingTemplate([UserData, OrderForm, Probe], map["unknown_field" := "text", "another_unknown" := "date"]) == None
    ensures MatchingTemplate([UserData, OrderForm, Probe], map["f_name1" := "email"]) == None
  {
    var ts := [UserData, OrderForm, Probe];
    var candidates := [map["customer" := "text"], map["login" := "text", "tel" := "phone"],
                       map["unknown_field" := "text", "another_unknown" := "date"], map["f_name1" := "email"]];
    forall c | 0 <= c < |candidates| ensures FirstMatch(ts, candidates[c]) == None {
      var f := candidates[c];
      assert "login" !in f || f["login"] != UserData["login"];
      assert "contact" !in f;
      assert "f_name2" !in f;
      assert "login" in TemplateFields(UserData) && "contact" in TemplateFields(OrderForm) && "f_name2" in TemplateFields(Probe);
      FirstMatchNone(ts, f);
    }
    assert FirstMatch(ts, candidates[0]) == None && FirstMatch(ts, candidates[1]) == None;
    assert FirstMatch(ts, candidates[2]) == None && FirstMatch(ts, candidates[3]) == None;
  }

  /** The test fixture: an empty table, the three templates added in order, then the store
      listed and queried with the order form's fields. */
  method StoreFixture() returns (names: seq<string>, found: Option<Template>)
    ensures names == ["Данные пользователя", "Форма заказа", "Проба"]
    ensures found == Some(OrderForm)
  {
    var db := new FormTemplateDB([]);
    db.AddTemplate(UserData);
    db.AddTemplate(OrderForm);
    db.AddTemplate(Probe);
    var all := db.GetAllTemplates();
    assert all == [UserData, OrderForm, Probe];
    names := [all[0][NameKey], all[1][NameKey], all[2][NameKey]];
    OrderFormExample();
    found := db.FindMatchingTemplate(map["customer" := "text", "order_id" := "text", "дата_заказа" := "date", "contact" := "phone"]);
  }
}
