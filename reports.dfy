/**
  The report scanner and record normalizer (`load_reports`, maphost.py lines
  12-66). It picks the `report_*` folders of the working directory, takes the
  first `.xml` file of each, and turns the parsed document into one flat
  record. The folder listing and the parse are inputs here: a folder carries
  the outcome of parsing its first `.xml` file, with None for a parse error.
*/
module Reports {
  import opened Util
  import Dates

  /** A `Field` element under `DynamicFieldsData`: its `name` attribute and its text, each possibly absent. */
  datatype DynamicField = DynamicField(name: Option<string>, text: Option<string>)

  /**
    What the record builder reads from a parsed document. `firstText` maps a tag
    to the text of the first element with that tag anywhere below the root ("" if
    that element has no text, which is what `findtext` returns); a tag that no
    element carries is not a key. `dynamicFields` lists the elements matching
    `.//DynamicFieldsData/Field` in document order.
  */
  datatype Document = Document(firstText: map<string, string>, dynamicFields: seq<DynamicField>)

  /**
    An entry of the working directory: its name, whether it is a directory, the
    names it lists (in listing order), and the outcome of parsing its first
    `.xml` file (None where `ET.parse` raises ParseError).
  */
  datatype Folder = Folder(name: string, isDir: bool, files: seq<string>, document: Option<Document>)

  /** The fixed scalar fields that come straight from one tag of the document. */
  datatype FixedField =
    | ActivityType | WorkPlace | DevelopmentStage | FarmName | Latitude | Longitude | WorkType
    | Executor | Culture | Region | District | Area | Description | Results

  /** The tag each fixed field is read from. */
  function Tag(f: FixedField): string
  {
    match f
    case ActivityType => "ActivityType"
    case WorkPlace => "WorkPlace"
    case DevelopmentStage => "DevelopmentStage"
    case FarmName => "FarmName"
    case Latitude => "Latitude"
    case Longitude => "Longitude"
    case WorkType => "WorkType"
    case Executor => "Executor"
    case Culture => "Culture"
    case Region => "Region"
    case District => "District"
    case Area => "Area"
    case Description => "Description"
    case Results => "Results"
  }

  /** The text a fixed field takes when its tag is absent from the document. */
  function Default(f: FixedField): string
  {
    match f
    case ActivityType => "Unknown Activity Type"
    case WorkPlace => "Unknown Work Place"
    case DevelopmentStage => "Unknown Development Stage"
    case FarmName => "Unknown Farm Name"
    case Latitude => "0.0"
    case Longitude => "0.0"
    case WorkType => "Unknown WorkType"
    case Executor => "Unknown Executor"
    case Culture => "Unknown Culture"
    case Region => "Unknown Region"
    case District => "Unknown District"
    case Area => "Unknown Area"
    case Description => "No Description"
    case Results => "No Results"
  }

  const DateTag: string := "Date"
  const ReportPrefix: string := "report_"
  const UnknownFieldName: string := "Unknown Field"
  const NoData: string := "Нет данных"

  /** One report record: the dictionary `load_reports` builds for a folder. */
  datatype Report = Report(
    id: string,
    activityType: string,
    workPlace: string,
    developmentStage: string,
    farmName: string,
    latitude: string,
    longitude: string,
    date: string,
    workType: string,
    executor: string,
    culture: string,
    region: string,
    district: string,
    area: string,
    description: string,
    results: string,
    dynamicFields: map<string, string>,
    photos: seq<string>,
    folderPath: string)
  {
    /** The record's value for a fixed field. */
    function Get(f: FixedField): string
    {
      match f
      case ActivityType => activityType
      case WorkPlace => workPlace
      case DevelopmentStage => developmentStage
      case FarmName => farmName
      case Latitude => latitude
      case Longitude => longitude
      case WorkType => workType
      case Executor => executor
      case Culture => culture
      case Region => region
      case District => district
      case Area => area
      case Description => description
      case Results => results
    }
  }

  /** `root.findtext(".//" + tag, default)`. */
  function FindText(doc: Document, tag: string, default: string): string
  {
    if tag in doc.firstText then doc.firstText[tag] else default
  }

  predicate IsXmlName(name: string)
  {
    EndsWith(name, ".xml")
  }

  predicate IsPhotoName(name: string)
  {
    EndsWith(name, ".jpg") || EndsWith(name, ".png")
  }

  /** `os.path.join(dir, name)` for a name that is not absolute. */
  function JoinPath(dir: string, name: string): string
  {
    if |dir| == 0 || dir[|dir| - 1] == '/' then dir + name else dir + "/" + name
  }

  /** The key a dynamic field is stored under: its `name` attribute or "Unknown Field". */
  function FieldName(f: DynamicField): string
  {
    f.name.GetOr(UnknownFieldName)
  }

  /** The value a dynamic field stores: its text, or "Нет данных" when the text is absent or empty. */
  function FieldValue(f: DynamicField): string
  {
    if f.text.None? || f.text.value == "" then NoData else f.text.value
  }

  /** The `dynamic_fields` map after storing every field in document order, so a later field overwrites an earlier one. */
  function DynamicFields(fields: seq<DynamicField>): map<string, string>
  {
    if |fields| == 0 then map[]
    else
      var last := fields[|fields| - 1];
      DynamicFields(fields[..|fields| - 1])[FieldName(last) := FieldValue(last)]
  }

  /** The keys are exactly the names of the fields. */
  lemma {:induction false} DynamicFieldsKeys(fields: seq<DynamicField>)
    ensures DynamicFields(fields).Keys == set i | 0 <= i < |fields| :: FieldName(fields[i])
  {
    if |fields| > 0 {
      var init := fields[..|fields| - 1];
      DynamicFieldsKeys(init);
      assert forall i :: 0 <= i < |init| ==> init[i] == fields[i];
      assert (set i | 0 <= i < |fields| :: FieldName(fields[i]))
          == (set i | 0 <= i < |init| :: FieldName(init[i])) + {FieldName(fields[|fields| - 1])};
    }
  }

  /** The value stored under a name comes from the last field with that name. */
  lemma {:induction false} DynamicFieldsLastWins(fields: seq<DynamicField>, j: nat)
    requires j < |fields|
    requires forall k :: j < k < |fields| ==> FieldName(fields[k]) != FieldName(fields[j])
    ensures FieldName(fields[j]) in DynamicFields(fields)
    ensures DynamicFields(fields)[FieldName(fields[j])] == FieldValue(fields[j])
  {
    if j < |fields| - 1 {
      var init := fields[..|fields| - 1];
      assert forall k :: j < k < |init| ==> init[k] == fields[k];
      DynamicFieldsLastWins(init, j);
    }
  }

  /** The loop of lines 58-61: stores each field's value under its name. */
  method CollectDynamicFields(fields: seq<DynamicField>) returns (m: map<string, string>)
    ensures m == DynamicFields(fields)
  {
    m := map[];
    for i := 0 to |fields|
      invariant m == DynamicFields(fields[..i])
    {
      assert fields[..i + 1][..i] == fields[..i];
      m := m[FieldName(fields[i]) := FieldValue(fields[i])];
    }
    assert fields[..|fields|] == fields;
  }

  /** `root.findtext(".//" + tag, default)` for a fixed field. */
  function FieldText(doc: Document, f: FixedField): string
  {
    FindText(doc, Tag(f), Default(f))
  }

  /** The dictionary literal of lines 37-57, with `dynamic_fields` still empty. */
  function BaseRecord(cwd: string, folder: Folder, doc: Document): Report
  {
    Report(
      id := folder.name,
      activityType := FieldText(doc, ActivityType),
      workPlace := FieldText(doc, WorkPlace),
      developmentStage := FieldText(doc, DevelopmentStage),
      farmName := FieldText(doc, FarmName),
      latitude := FieldText(doc, Latitude),
      longitude := FieldText(doc, Longitude),
      date := Dates.Normalize(FindText(doc, DateTag, Dates.UnknownDate)),
      workType := FieldText(doc, WorkType),
      executor := FieldText(doc, Executor),
      culture := FieldText(doc, Culture),
      region := FieldText(doc, Region),
      district := FieldText(doc, District),
      area := FieldText(doc, Area),
      description := FieldText(doc, Description),
      results := FieldText(doc, Results),
      dynamicFields := map[],
      photos := Filter(IsPhotoName, folder.files),
      folderPath := JoinPath(cwd, folder.name))
  }

  /** The finished record of a folder: the literal with its dynamic fields filled in. */
  function BuildReport(cwd: string, folder: Folder, doc: Document): Report
  {
    BaseRecord(cwd, folder, doc).(dynamicFields := DynamicFields(doc.dynamicFields))
  }

  /** The document a folder contributes, or None when `load_reports` skips it (lines 19-25, 64). */
  function FolderDocument(folder: Folder): Option<Document>
  {
    if folder.isDir && StartsWith(folder.name, ReportPrefix) && FirstIndex(IsXmlName, folder.files).Some?
    then folder.document
    else None
  }

  predicate Admitted(folder: Folder)
  {
    FolderDocument(folder).Some?
  }

  /** The records one folder contributes: none, or its record. */
  function FolderRecords(cwd: string, folder: Folder): seq<Report>
  {
    match FolderDocument(folder)
    case Some(doc) => [BuildReport(cwd, folder, doc)]
    case None => []
  }

  /** The records of a listing, in listing order: what `load_reports` returns. */
  function Scan(cwd: string, folders: seq<Folder>): seq<Report>
  {
    if |folders| == 0 then [] else FolderRecords(cwd, folders[0]) + Scan(cwd, folders[1..])
  }

  /** A folder yields a record exactly when it is a directory named report_*, lists an .xml file, and that file parsed. */
  lemma AdmittedIff(folder: Folder)
    ensures Admitted(folder) <==>
              folder.isDir && StartsWith(folder.name, ReportPrefix)
              && (exists i :: 0 <= i < |folder.files| && IsXmlName(folder.files[i]))
              && folder.document.Some?
  {
    if !(exists i :: 0 <= i < |folder.files| && IsXmlName(folder.files[i])) {
      assert FirstIndex(IsXmlName, folder.files).None?;
    }
  }

  /** Scanning a listing in two parts gives the records of the first part, then those of the second. */
  lemma {:induction false} ScanAppend(cwd: string, a: seq<Folder>, b: seq<Folder>)
    ensures Scan(cwd, a + b) == Scan(cwd, a) + Scan(cwd, b)
  {
    if |a| == 0 {
      assert a + b == b;
    } else {
      assert (a + b)[0] == a[0];
      assert (a + b)[1..] == a[1..] + b;
      ScanAppend(cwd, a[1..], b);
    }
  }

  /** Scanning one more folder of the listing appends that folder's records. */
  lemma ScanStep(cwd: string, folders: seq<Folder>, i: nat)
    requires i < |folders|
    ensures Scan(cwd, folders[..i + 1]) == Scan(cwd, folders[..i]) + FolderRecords(cwd, folders[i])
  {
    var folder := folders[i];
    assert folders[..i + 1] == folders[..i] + [folder];
    ScanAppend(cwd, folders[..i], [folder]);
    ScanSingle(cwd, folder);
  }

  lemma ScanSingle(cwd: string, folder: Folder)
    ensures Scan(cwd, [folder]) == FolderRecords(cwd, folder)
  {
    assert [folder][1..] == [];
    assert FolderRecords(cwd, folder) + [] == FolderRecords(cwd, folder);
  }

  /**
    The records are those of the admitted folders, one each and in listing order;
    each record's id is its folder's name and its photos are the folder's `.jpg`
    and `.png` names in listing order.
  */
  lemma {:induction false} ScanRecords(cwd: string, folders: seq<Folder>)
    ensures |Scan(cwd, folders)| == |Filter(Admitted, folders)|
    ensures forall i :: 0 <= i < |Scan(cwd, folders)| ==>
              var folder := Filter(Admitted, folders)[i];
              Admitted(folder) && Scan(cwd, folders)[i] == BuildReport(cwd, folder, FolderDocument(folder).value)
  {
    ScanCount(cwd, folders);
    forall i | 0 <= i < |Scan(cwd, folders)|
      ensures var folder := Filter(Admitted, folders)[i];
              Admitted(folder) && Scan(cwd, folders)[i] == BuildReport(cwd, folder, FolderDocument(folder).value)
    {
      ScanRecordAt(cwd, folders, i);
    }
  }

  lemma {:induction false} ScanCount(cwd: string, folders: seq<Folder>)
    ensures |Scan(cwd, folders)| == |Filter(Admitted, folders)|
  {
    if |folders| > 0 {
      ScanCount(cwd, folders[1..]);
    }
  }

  lemma {:induction false} ScanRecordAt(cwd: string, folders: seq<Folder>, i: nat)
    requires i < |Scan(cwd, folders)| && i < |Filter(Admitted, folders)|
    ensures var folder := Filter(Admitted, folders)[i];
            Admitted(folder) && Scan(cwd, folders)[i] == BuildReport(cwd, folder, FolderDocument(folder).value)
  {
    var folder, rest := folders[0], folders[1..];
    var head := if Admitted(folder) then [folder] else [];
    assert Scan(cwd, folders) == FolderRecords(cwd, folder) + Scan(cwd, rest);
    assert Filter(Admitted, folders) == head + Filter(Admitted, rest);
    if i >= |head| {
      ScanCount(cwd, rest);
      ScanRecordAt(cwd, rest, i - |head|);
    }
  }

  /** The identity and photo list of every record, read off its folder. */
  lemma RecordIdentity(cwd: string, folder: Folder, doc: Document)
    ensures BuildReport(cwd, folder, doc).id == folder.name
    ensures forall p :: p in BuildReport(cwd, folder, doc).photos <==>
              p in folder.files && (EndsWith(p, ".jpg") || EndsWith(p, ".png"))
    ensures BuildReport(cwd, folder, doc).photos == Filter(IsPhotoName, folder.files)
  {
  }

  /**
    Each fixed field is the text of the first element with its tag when the
    document has one, and the field's default when it has none.
  */
  lemma RecordFields(cwd: string, folder: Folder, doc: Document, f: FixedField)
    ensures Tag(f) in doc.firstText ==> BuildReport(cwd, folder, doc).Get(f) == doc.firstText[Tag(f)]
    ensures Tag(f) !in doc.firstText ==> BuildReport(cwd, folder, doc).Get(f) == Default(f)
  {
    RecordFieldText(cwd, folder, doc, f);
  }

  lemma RecordFieldText(cwd: string, folder: Folder, doc: Document, f: FixedField)
    ensures BuildReport(cwd, folder, doc).Get(f) == FieldText(doc, f)
  {
    var r := BuildReport(cwd, folder, doc);
    match f
    case ActivityType => assert r.activityType == FieldText(doc, f);
    case WorkPlace => assert r.workPlace == FieldText(doc, f);
    case DevelopmentStage => assert r.developmentStage == FieldText(doc, f);
    case FarmName => assert r.farmName == FieldText(doc, f);
    case Latitude => assert r.latitude == FieldText(doc, f);
    case Longitude => assert r.longitude == FieldText(doc, f);
    case WorkType => assert r.workType == FieldText(doc, f);
    case Executor => assert r.executor == FieldText(doc, f);
    case Culture => assert r.culture == FieldText(doc, f);
    case Region => assert r.region == FieldText(doc, f);
    case District => assert r.district == FieldText(doc, f);
    case Area => assert r.area == FieldText(doc, f);
    case Description => assert r.description == FieldText(doc, f);
    case Results => assert r.results == FieldText(doc, f);
  }

  /**
    The date is the normalized text of the first `Date` element, or the
    sentinel when there is none.
  */
  lemma RecordDate(cwd: string, folder: Folder, doc: Document)
    ensures DateTag in doc.firstText ==> BuildReport(cwd, folder, doc).date == Dates.Normalize(doc.firstText[DateTag])
    ensures DateTag !in doc.firstText ==> BuildReport(cwd, folder, doc).date == Dates.UnknownDate
  {
    if DateTag !in doc.firstText {
      Dates.NormalizeEmptyAndDefault();
    }
  }

  /** A record's date is the sentinel or the "YYYY-MM-DD" text of a real day, which "%Y-%m-%d" reads back. */
  lemma RecordDateReparses(cwd: string, folder: Folder, doc: Document)
    ensures var date := BuildReport(cwd, folder, doc).date;
            date == Dates.UnknownDate || Dates.Reformats(date)
  {
    var raw := FindText(doc, DateTag, Dates.UnknownDate);
    Dates.NormalizeReparses(raw);
    if Dates.ParseDayMonthYear(raw).Some? {
      Dates.ParseIsoFormat(Dates.ParseDayMonthYear(raw).value);
    }
  }

  /** Every scanned record's date is the sentinel or the text of a real day that parses back. */
  lemma {:induction false} ScanDates(cwd: string, folders: seq<Folder>)
    ensures forall r :: r in Scan(cwd, folders) ==>
              r.date == Dates.UnknownDate || Dates.Reformats(r.date)
  {
    if |folders| > 0 {
      ScanDates(cwd, folders[1..]);
      match FolderDocument(folders[0]) {
        case Some(doc) => RecordDateReparses(cwd, folders[0], doc);
        case None =>
      }
    }
  }

  /** The loop of lines 16-65: one record per admitted folder, appended in listing order. */
  method LoadReports(cwd: string, folders: seq<Folder>) returns (reports: seq<Report>)
    ensures reports == Scan(cwd, folders)
  {
    reports := [];
    for i := 0 to |folders|
      invariant reports == Scan(cwd, folders[..i])
    {
      var folder := folders[i];
      ScanStep(cwd, folders, i);
      if folder.isDir && StartsWith(folder.name, ReportPrefix) {
        var xmlFile := FirstIndex(IsXmlName, folder.files);
        if xmlFile.Some? {
          match folder.document {
            case Some(doc) =>
              var report := BaseRecord(cwd, folder, doc);
              var dynamic := CollectDynamicFields(doc.dynamicFields);
              report := report.(dynamicFields := dynamic);
              reports := reports + [report];
            case None =>
              // ET.ParseError: the folder is reported on the console and skipped.
          }
        }
      }
    }
    assert folders[..|folders|] == folders;
  }
}
