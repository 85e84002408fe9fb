/** Equipment templates: decoding of stored point lists, the built-in catalog, lookup by
    name and the first-wins de-duplication of `ensure_template_seeded`. */
module Templates {
  import opened Domain

  /** A stored template point: a bare name from older files, or a full point. */
  datatype TemplatePointSerde = Legacy(name: string) | Rich(point: TemplatePoint)

  /** The name an encoded point carries. */
  function SerdeName(item: TemplatePointSerde): string {
    match item
    case Legacy(n) => n
    case Rich(p) => p.name
  }

  /** `deserialize_template_points`: decode in order; a bare name becomes an `AI` point. */
  function DeserializeTemplatePoints(raw: seq<TemplatePointSerde>): (r: seq<TemplatePoint>)
    ensures |r| == |raw|
    ensures forall i :: 0 <= i < |raw| ==> r[i].name == SerdeName(raw[i])
    ensures forall i :: 0 <= i < |raw| && raw[i].Legacy? ==> r[i].kind == AI
    ensures forall i :: 0 <= i < |raw| && raw[i].Rich? ==> r[i] == raw[i].point
  {
    seq(|raw|, i requires 0 <= i < |raw| =>
      match raw[i]
      case Legacy(n) => TemplatePoint(n, AI)
      case Rich(p) => p)
  }

  /** The current file format: every point stored in full. */
  function EncodeRich(points: seq<TemplatePoint>): (r: seq<TemplatePointSerde>)
    ensures |r| == |points|
  {
    seq(|points|, i requires 0 <= i < |points| => Rich(points[i]))
  }

  /** Points written in the current format decode to themselves. */
  lemma RichRoundTrip(points: seq<TemplatePoint>)
    ensures DeserializeTemplatePoints(EncodeRich(points)) == points
  {
  }

  /** A legacy name list decodes to the same names, in order, all `AI`. */
  lemma LegacyDecodesToAi(names: seq<string>)
    ensures var r := DeserializeTemplatePoints(seq(|names|, i requires 0 <= i < |names| => Legacy(names[i])));
            |r| == |names| && forall i :: 0 <= i < |names| ==> r[i] == TemplatePoint(names[i], AI)
  {
  }

  function Ai(name: string): TemplatePoint {
    TemplatePoint(name, AI)
  }

  /** `EquipmentTemplate::default()`: the VAV template. */
  function DefaultTemplate(): EquipmentTemplate {
    EquipmentTemplate("VAV Typical", "VAV",
      [Ai("Space Temp"), Ai("Discharge Temp"), Ai("Damper Cmd"), Ai("Airflow")],
      StaticByEquipment, HourCoefficients(2.0, 0.25, 1.0, 0.12, 1.5, 0.18))
  }

  function AhuTemplate(): EquipmentTemplate {
    EquipmentTemplate("AHU Typical", "AHU",
      [Ai("Space Temp"), Ai("Supply Temp"), Ai("Return Temp"), Ai("Static Pressure"), Ai("Fan Cmd"), Ai("Filter DP")],
      StaticByEquipment, HourCoefficients(5.0, 0.3, 2.0, 0.15, 3.0, 0.2))
  }

  function BoilerTemplate(): EquipmentTemplate {
    EquipmentTemplate("Boiler Plant", "Boiler",
      [Ai("Space Temp"), Ai("Enable"), Ai("Water Temp"), Ai("Status"), Ai("Alarm")],
      StaticByEquipment, HourCoefficients(4.0, 0.3, 1.5, 0.15, 2.5, 0.2))
  }

  function ChillerTemplate(): EquipmentTemplate {
    EquipmentTemplate("Chiller", "Chiller",
      [Ai("Space Temp"), Ai("CHWS Temp"), Ai("CHWR Temp"), Ai("Run Cmd"), Ai("kW"), Ai("Fault")],
      StaticByEquipment, HourCoefficients(5.0, 0.3, 2.0, 0.15, 3.0, 0.2))
  }

  function FcuTemplate(): EquipmentTemplate {
    EquipmentTemplate("Fan Coil Unit", "FCU",
      [Ai("Space Temp"), Ai("Room Temp"), Ai("Fan Speed"), Ai("Valve Cmd"), Ai("Occupancy")],
      StaticByEquipment, HourCoefficients(2.5, 0.25, 1.0, 0.12, 1.5, 0.18))
  }

  /** `template_seed_data()`: the five built-in templates. */
  function SeedData(): seq<EquipmentTemplate> {
    [DefaultTemplate(), AhuTemplate(), BoilerTemplate(), ChillerTemplate(), FcuTemplate()]
  }

  /** The templates of `Project::default()`: the seed catalog without the fan coil unit. */
  function ProjectDefaultTemplates(): seq<EquipmentTemplate> {
    [DefaultTemplate(), AhuTemplate(), BoilerTemplate(), ChillerTemplate()]
  }

  /** Every name in the list. */
  function Names(ts: seq<EquipmentTemplate>): set<string> {
    set t | t in ts :: t.name
  }

  /** No two templates share a name. */
  predicate UniqueNames(ts: seq<EquipmentTemplate>) {
    forall i, j :: 0 <= i < j < |ts| ==> ts[i].name != ts[j].name
  }

  /** The seed catalog has five templates with distinct names. */
  lemma SeedDataUnique()
    ensures |SeedData()| == 5 && UniqueNames(SeedData())
  {
    var s := SeedData();
    assert s[0].name[0] == 'V' && s[1].name[0] == 'A' && s[2].name[0] == 'B'
        && s[3].name[1] == 'h' && s[4].name[0] == 'F' && s[3].name[0] == 'C';
  }

  /** A template that is static and declares only `AI` points, at least one. */
  predicate StaticAi(t: EquipmentTemplate) {
    t.hourMode == StaticByEquipment && t.points != [] && forall i :: 0 <= i < |t.points| ==> t.points[i].kind == AI
  }

  /** Every built-in template is static, has points, and declares them all `AI`. */
  lemma SeedDataShape()
    ensures forall i :: 0 <= i < |SeedData()| ==> StaticAi(SeedData()[i])
  {
  }

  /** The project default catalog is the seed catalog without its last entry. */
  lemma ProjectDefaultIsSeedPrefix()
    ensures ProjectDefaultTemplates() == SeedData()[..4]
    ensures FcuTemplate() !in ProjectDefaultTemplates()
  {
    assert FcuTemplate().name[0] == 'F';
  }

  /** `templates.iter().find(|t| t.name == name)`. */
  function FindTemplate(ts: seq<EquipmentTemplate>, name: string): (r: Option<EquipmentTemplate>)
    ensures r.Some? ==> r.value in ts && r.value.name == name
    ensures r.None? <==> name !in Names(ts)
  {
    if |ts| == 0 then None
    else if ts[0].name == name then Some(ts[0])
    else
      assert forall t :: t in ts <==> t == ts[0] || t in ts[1..];
      FindTemplate(ts[1..], name)
  }

  /** `load_user_templates`: the stored list when it could be read and holds at least one
      template, else the seed data. Reading and parsing the file is outside the model:
      `stored` is `None` when either fails. */
  function LoadUserTemplates(stored: Option<seq<EquipmentTemplate>>): (r: seq<EquipmentTemplate>)
    ensures r != []
    ensures stored.Some? && stored.value != [] ==> r == stored.value
    ensures stored.None? || stored.value == [] ==> r == SeedData()
  {
    if stored.Some? && stored.value != [] then stored.value else SeedData()
  }

  /** `retain(|t| names.insert(t.name.clone()))` with `seen` the names inserted so far: keep a
      template exactly when its name has not been seen. */
  function DedupByName(ts: seq<EquipmentTemplate>, seen: set<string>): seq<EquipmentTemplate>
  {
    if |ts| == 0 then []
    else if ts[0].name in seen then DedupByName(ts[1..], seen)
    else [ts[0]] + DedupByName(ts[1..], seen + {ts[0].name})
  }

  /** Every kept template comes from the input and carries a name not yet seen. */
  lemma {:induction false} DedupFrom(ts: seq<EquipmentTemplate>, seen: set<string>)
    ensures forall t :: t in DedupByName(ts, seen) ==> t in ts && t.name !in seen
    decreases |ts|
  {
    if |ts| > 0 {
      if ts[0].name in seen {
        DedupFrom(ts[1..], seen);
      } else {
        DedupFrom(ts[1..], seen + {ts[0].name});
      }
    }
  }

  /** The kept names are the input's names not yet seen. */
  lemma {:induction false} DedupNames(ts: seq<EquipmentTemplate>, seen: set<string>)
    ensures Names(DedupByName(ts, seen)) == Names(ts) - seen
    decreases |ts|
  {
    if |ts| > 0 {
      assert forall t :: t in ts <==> t == ts[0] || t in ts[1..];
      if ts[0].name in seen {
        DedupNames(ts[1..], seen);
      } else {
        DedupNames(ts[1..], seen + {ts[0].name});
        var tail := DedupByName(ts[1..], seen + {ts[0].name});
        assert forall t :: t in [ts[0]] + tail <==> t == ts[0] || t in tail;
        assert Names([ts[0]] + tail) == {ts[0].name} + Names(tail);
        assert Names(ts) == {ts[0].name} + Names(ts[1..]);
      }
    }
  }

  /** No two kept templates share a name. */
  lemma {:induction false} DedupUnique(ts: seq<EquipmentTemplate>, seen: set<string>)
    ensures UniqueNames(DedupByName(ts, seen))
    decreases |ts|
  {
    if |ts| > 0 {
      if ts[0].name in seen {
        DedupUnique(ts[1..], seen);
      } else {
        var tail := DedupByName(ts[1..], seen + {ts[0].name});
        DedupUnique(ts[1..], seen + {ts[0].name});
        DedupFrom(ts[1..], seen + {ts[0].name});
        var r := [ts[0]] + tail;
        forall i, j | 0 <= i < j < |r| ensures r[i].name != r[j].name {
          if i == 0 { assert r[j] == tail[j - 1] && tail[j - 1] in tail; }
          else { assert r[i] == tail[i - 1] && r[j] == tail[j - 1]; }
        }
      }
    }
  }

  /** Each kept template is the first of its name in the input: de-duplication never changes
      which template a name resolves to. */
  lemma {:induction false} DedupKeepsFirst(ts: seq<EquipmentTemplate>, seen: set<string>, name: string)
    requires name !in seen
    ensures FindTemplate(DedupByName(ts, seen), name) == FindTemplate(ts, name)
    decreases |ts|
  {
    if |ts| > 0 {
      if ts[0].name in seen {
        DedupKeepsFirst(ts[1..], seen, name);
      } else if ts[0].name != name {
        DedupKeepsFirst(ts[1..], seen + {ts[0].name}, name);
      }
    }
  }

  /** A list with unique names none of which have been seen is kept whole. */
  lemma {:induction false} DedupOfUnique(ts: seq<EquipmentTemplate>, seen: set<string>)
    requires UniqueNames(ts) && Names(ts) !! seen
    ensures DedupByName(ts, seen) == ts
    decreases |ts|
  {
    if |ts| > 0 {
      UniqueTail(ts, seen);
      DedupOfUnique(ts[1..], seen + {ts[0].name});
    }
  }

  /** The tail of such a list is such a list once the head's name is seen. */
  lemma UniqueTail(ts: seq<EquipmentTemplate>, seen: set<string>)
    requires |ts| > 0 && UniqueNames(ts) && Names(ts) !! seen
    ensures ts[0].name !in seen
    ensures UniqueNames(ts[1..]) && Names(ts[1..]) !! seen + {ts[0].name}
  {
    assert ts[0] in ts;
    forall t | t in ts[1..] ensures t.name != ts[0].name && t.name !in seen {
      var k :| 0 <= k < |ts[1..]| && ts[1..][k] == t;
      assert ts[k + 1] == t;
    }
  }

  /** De-duplicating twice is de-duplicating once. */
  lemma DedupIdempotent(ts: seq<EquipmentTemplate>)
    ensures DedupByName(DedupByName(ts, {}), {}) == DedupByName(ts, {})
  {
    DedupUnique(ts, {});
    DedupOfUnique(DedupByName(ts, {}), {});
  }

  /** The catalog after `ensure_template_seeded`: the seed data when the list was empty,
      then de-duplicated by name. */
  function SeededCatalog(userTemplates: seq<EquipmentTemplate>): seq<EquipmentTemplate> {
    DedupByName(if userTemplates == [] then SeedData() else userTemplates, {})
  }

  /** `ensure_template_seeded` leaves a non-empty catalog with unique names in which every name
      of the input resolves to the template it resolved to before. */
  lemma SeededCatalogFacts(userTemplates: seq<EquipmentTemplate>)
    ensures var r := SeededCatalog(userTemplates);
            r != [] && UniqueNames(r)
            && (userTemplates != [] ==>
                  (Names(r) == Names(userTemplates) && forall n :: FindTemplate(r, n) == FindTemplate(userTemplates, n)))
            && (userTemplates == [] ==> r == SeedData())
  {
    var src := if userTemplates == [] then SeedData() else userTemplates;
    DedupUnique(src, {});
    DedupNames(src, {});
    assert src[0] in src;
    assert src[0].name in Names(SeededCatalog(userTemplates));
    if userTemplates == [] {
      SeedDataUnique();
      DedupOfUnique(SeedData(), {});
    } else {
      forall n ensures FindTemplate(SeededCatalog(userTemplates), n) == FindTemplate(userTemplates, n) {
        DedupKeepsFirst(userTemplates, {}, n);
      }
    }
  }
}
