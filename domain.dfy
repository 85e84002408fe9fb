/** The project's records: the object tree's nodes, templates, overlay tokens and lines,
    custom hour lines and the two settings blocks. `f32` values are modelled as `real`,
    `u64` ids and `u32` counters as `nat`. */
module Domain {

  datatype Option<+T> = None | Some(value: T)

  datatype ObjectType = Building | Controller | Equipment | Point

  datatype PointKind = AI | DI | AO | DO | NetworkX

  datatype HourCalculationMode = StaticByEquipment | PointsBased

  datatype PropertyItem = PropertyItem(key: string, value: string)

  datatype PropertyGroup = PropertyGroup(name: string, items: seq<PropertyItem>)

  /** The six hour coefficients a template declares and an equipment may override:
      a flat figure and a per-point figure for engineering, graphics and commissioning. */
  datatype HourCoefficients = HourCoefficients(
    engineering: real,
    engineeringPerPoint: real,
    graphics: real,
    graphicsPerPoint: real,
    commissioning: real,
    commissioningPerPoint: real)

  const ZeroHours := HourCoefficients(0.0, 0.0, 0.0, 0.0, 0.0, 0.0)

  /** `BasObject`: one node of the object tree. It carries every kind's fields at once. */
  datatype BasObject = BasObject(
    id: nat,
    parentId: Option<nat>,
    objectType: ObjectType,
    name: string,
    equipmentType: string,
    equipmentTag: string,
    make: string,
    model: string,
    controllerType: string,
    controllerLicense: string,
    templateName: string,
    equipmentTypeOverride: bool,
    hoursOverride: bool,
    hoursOverrideMode: HourCalculationMode,
    overrideHours: HourCoefficients,
    pointKind: PointKind,
    propertyGroups: seq<PropertyGroup>)

  /** `ObjectType::label` */
  function Label(kind: ObjectType): string {
    match kind
    case Building => "Building"
    case Controller => "Controller"
    case Equipment => "Equipment"
    case Point => "Point"
  }

  datatype TemplatePoint = TemplatePoint(name: string, kind: PointKind)

  datatype EquipmentTemplate = EquipmentTemplate(
    name: string,
    equipmentType: string,
    points: seq<TemplatePoint>,
    hourMode: HourCalculationMode,
    hours: HourCoefficients)

  /** A canvas position `[f32; 2]`. */
  datatype Pos = Pos(x: real, y: real)

  /** A placed token: it refers to an object of the tree by id. */
  datatype OverlayNode = OverlayNode(id: nat, objectId: nat, x: real, y: real)

  /** A routed line segment between two canvas positions. */
  datatype OverlayLine = OverlayLine(start: Pos, end: Pos)

  datatype HourLine = HourLine(name: string, category: string, quantity: real, hoursPerUnit: real)

  datatype EstimatorSettings = EstimatorSettings(
    complexityFactor: real,
    renovationFactor: real,
    integrationFactor: real,
    qaPercent: real,
    projectManagementPercent: real,
    riskPercent: real)

  /** `EstimatorSettings::default()` */
  const DefaultEstimator := EstimatorSettings(1.0, 1.0, 1.0, 8.0, 12.0, 5.0)

  datatype AppSettings = AppSettings(
    companyName: string,
    autosaveMinutes: nat,
    uiScale: real,
    showOverlayGrid: bool)

  /** `AppSettings::default()` (the accent colour is not modelled). */
  const DefaultSettings := AppSettings("AutoMate Controls", 10, 1.0, true)

  /** Concatenation regroups. */
  lemma SeqAssoc<T>(a: seq<T>, b: seq<T>, c: seq<T>)
    ensures (a + b) + c == a + (b + c)
  {
  }
}
