/**
  The three views of the report service over the scanned records: the filter
  lists of the index page, the detail of one report with its photos as data
  URIs, and the per-day counts of the statistics endpoint.
*/
module Views {
  import opened Util
  import opened StringOrder
  import Dates
  import Base64
  import opened Reports

  // ---------------------------------------------------------------------------
  // Index page: the filter lists (maphost.py:74-81)

  /** The four filter lists the index page offers. */
  datatype FilterLists = FilterLists(
    dates: seq<string>,
    regions: seq<string>,
    activityTypes: seq<string>,
    workTypes: seq<string>)

  /** The four record fields the index page filters on. */
  datatype FilterColumn = DateColumn | RegionColumn | ActivityTypeColumn | WorkTypeColumn

  /** A record's value in one filter column. */
  function ValueIn(c: FilterColumn, r: Report): string
  {
    match c
    case DateColumn => r.date
    case RegionColumn => r.region
    case ActivityTypeColumn => r.activityType
    case WorkTypeColumn => r.workType
  }

  /** The value that stands for "no value" in one filter column. */
  function Sentinel(c: FilterColumn): string
  {
    match c
    case DateColumn => Dates.UnknownDate
    case RegionColumn => Default(Region)
    case ActivityTypeColumn => Default(ActivityType)
    case WorkTypeColumn => Default(WorkType)
  }

  /** One column of the records, in record order. */
  function Column(reports: seq<Report>, c: FilterColumn): (values: seq<string>)
    ensures |values| == |reports|
    ensures forall i :: 0 <= i < |reports| ==> values[i] == ValueIn(c, reports[i])
  {
    if |reports| == 0 then [] else [ValueIn(c, reports[0])] + Column(reports[1..], c)
  }

  /** `sorted(set(v for v in values if v != sentinel))`. */
  function DistinctValues(values: seq<string>, sentinel: string): (r: seq<string>)
    ensures StrictlyIncreasing(r)
    ensures forall v :: v in r <==> v in values && v != sentinel
  {
    SortedSet(Filter((v: string) => v != sentinel, values))
  }

  /** One filter list of the index page. */
  function FilterList(reports: seq<Report>, c: FilterColumn): seq<string>
  {
    DistinctValues(Column(reports, c), Sentinel(c))
  }

  /** The filters dictionary of the index page. */
  function BuildFilters(reports: seq<Report>): FilterLists
  {
    FilterLists(
      dates := FilterList(reports, DateColumn),
      regions := FilterList(reports, RegionColumn),
      activityTypes := FilterList(reports, ActivityTypeColumn),
      workTypes := FilterList(reports, WorkTypeColumn))
  }

  /**
    Each filter list is strictly increasing in Python's string order (so it is
    sorted and free of duplicates) and holds exactly the values some record
    carries in that column, except the column's sentinel.
  */
  lemma FilterListContents(reports: seq<Report>, c: FilterColumn)
    ensures StrictlyIncreasing(FilterList(reports, c))
    ensures forall v :: v in FilterList(reports, c) <==>
              v != Sentinel(c) && exists i :: 0 <= i < |reports| && ValueIn(c, reports[i]) == v
  {
    var values := Column(reports, c);
    forall v ensures v in values <==> exists i :: 0 <= i < |reports| && ValueIn(c, reports[i]) == v {
      if v in values {
        var i :| 0 <= i < |values| && values[i] == v;
      }
      if exists i :: 0 <= i < |reports| && ValueIn(c, reports[i]) == v {
        var i :| 0 <= i < |reports| && ValueIn(c, reports[i]) == v;
        assert values[i] == v;
      }
    }
  }

  /**
    The filter lists do not depend on the order of the records: any two record
    lists carrying the same values give the same filter list.
  */
  lemma DistinctValuesOrderFree(a: seq<string>, b: seq<string>, sentinel: string)
    requires forall v :: v in a <==> v in b
    ensures DistinctValues(a, sentinel) == DistinctValues(b, sentinel)
  {
    StrictlyIncreasingUnique(DistinctValues(a, sentinel), DistinctValues(b, sentinel));
  }

  /** A strictly increasing list of formatted days is in calendar order. */
  lemma FormattedChronological(dates: seq<string>)
    requires StrictlyIncreasing(dates)
    requires forall i :: 0 <= i < |dates| ==> Dates.Reformats(dates[i])
    ensures forall i, j :: 0 <= i < j < |dates| ==>
              Dates.Reformats(dates[i]) && Dates.Reformats(dates[j])
              && Dates.Before(Dates.ParseIso(dates[i]).value, Dates.ParseIso(dates[j]).value)
  {
    forall i, j | 0 <= i < j < |dates|
      ensures Dates.Reformats(dates[i]) && Dates.Reformats(dates[j]) && Dates.Before(Dates.ParseIso(dates[i]).value, Dates.ParseIso(dates[j]).value)
    {
      assert Dates.Reformats(dates[i]) && Dates.Reformats(dates[j]);
      Dates.FormatOrder(Dates.ParseIso(dates[i]).value, Dates.ParseIso(dates[j]).value);
    }
  }

  /**
    Over scanned records the date filter is in calendar order: every entry is
    the "YYYY-MM-DD" text of a real day and an earlier entry is an earlier day.
  */
  lemma DateFilterChronological(cwd: string, folders: seq<Folder>)
    ensures var dates := BuildFilters(Scan(cwd, folders)).dates;
            (forall i :: 0 <= i < |dates| ==> Dates.Reformats(dates[i]))
            && (forall i, j :: 0 <= i < j < |dates| ==>
                  Dates.Reformats(dates[i]) && Dates.Reformats(dates[j]) && Dates.Before(Dates.ParseIso(dates[i]).value, Dates.ParseIso(dates[j]).value))
  {
    var reports := Scan(cwd, folders);
    var dates := BuildFilters(reports).dates;
    ScanDates(cwd, folders);
    FilterListContents(reports, DateColumn);
    forall i | 0 <= i < |dates|
      ensures Dates.Reformats(dates[i])
    {
      assert dates[i] in dates;
      var k :| 0 <= k < |reports| && ValueIn(DateColumn, reports[k]) == dates[i];
      assert reports[k] in reports;
    }
    FormattedChronological(dates);
  }

  // ---------------------------------------------------------------------------
  // Detail view (maphost.py:88-102)

  const JpegDataUriPrefix: string := "data:image/jpeg;base64,"

  /** A photo's bytes as the data URI the detail view sends. */
  function DataUri(bytes: seq<byte>): string
  {
    JpegDataUriPrefix + Base64.Encode(bytes)
  }

  /** A data URI carries the photo's bytes unchanged: its payload decodes back to them. */
  lemma DataUriDecodes(bytes: seq<byte>)
    ensures StartsWith(DataUri(bytes), JpegDataUriPrefix)
    ensures Base64.Decode(DataUri(bytes)[|JpegDataUriPrefix|..]) == Some(bytes)
  {
    assert DataUri(bytes)[|JpegDataUriPrefix|..] == Base64.Encode(bytes);
    Base64.DecodeEncode(bytes);
  }

  /** Answer of the detail view: 404, a failed photo read (an unhandled fault), or the record. */
  datatype DetailResponse = NotFound | ReadFault | Found(report: Report)

  /** `next((r for r in reports if r['id'] == id), None)`. */
  function Lookup(reports: seq<Report>, id: string): (r: Option<Report>)
    ensures r.None? <==> forall i :: 0 <= i < |reports| ==> reports[i].id != id
    ensures r.Some? ==> exists k :: 0 <= k < |reports| && reports[k] == r.value && r.value.id == id
                                   && forall j :: 0 <= j < k ==> reports[j].id != id
  {
    match FirstIndex((x: Report) => x.id == id, reports)
    case None => None
    case Some(k) => Some(reports[k])
  }

  /** Every photo of a record can be read from the disk. */
  predicate Readable(folderPath: string, photos: seq<string>, disk: map<string, seq<byte>>)
  {
    forall i :: 0 <= i < |photos| ==> JoinPath(folderPath, photos[i]) in disk
  }

  /**
    The photo loop of the detail view: each photo file of the folder read and
    turned into a data URI, in order; a file that cannot be read ends it.
  */
  method EncodePhotos(folderPath: string, photos: seq<string>, disk: map<string, seq<byte>>)
    returns (uris: Option<seq<string>>)
    ensures uris.Some? <==> Readable(folderPath, photos, disk)
    ensures uris.Some? ==>
              |uris.value| == |photos|
              && forall i :: 0 <= i < |photos| ==>
                   uris.value[i] == DataUri(disk[JoinPath(folderPath, photos[i])])
  {
    var encoded: seq<string> := [];
    for i := 0 to |photos|
      invariant Readable(folderPath, photos[..i], disk)
      invariant |encoded| == i
      invariant forall k :: 0 <= k < i ==> encoded[k] == DataUri(disk[JoinPath(folderPath, photos[k])])
    {
      var path := JoinPath(folderPath, photos[i]);
      if path !in disk {
        return None;
      }
      encoded := encoded + [DataUri(disk[path])];
    }
    assert photos[..|photos|] == photos;
    return Some(encoded);
  }

  /**
    `get_report`: the first scanned record with the id, its photo names
    replaced by their data URIs; 404 when no record has the id.
  */
  method GetReport(cwd: string, folders: seq<Folder>, disk: map<string, seq<byte>>, id: string)
    returns (resp: DetailResponse)
    ensures match Lookup(Scan(cwd, folders), id)
            case None => resp == NotFound
            case Some(report) =>
              if Readable(report.folderPath, report.photos, disk) then
                resp.Found? && resp.report == report.(photos := resp.report.photos)
                && |resp.report.photos| == |report.photos|
                && forall i :: 0 <= i < |report.photos| ==>
                     resp.report.photos[i] == DataUri(disk[JoinPath(report.folderPath, report.photos[i])])
              else resp == ReadFault
  {
    var reports := LoadReports(cwd, folders);
    match Lookup(reports, id) {
      case None =>
        return NotFound;
      case Some(report) =>
        var uris := EncodePhotos(report.folderPath, report.photos, disk);
        match uris {
          case None =>
            return ReadFault;
          case Some(encoded) =>
            return Found(report.(photos := encoded));
        }
    }
  }

  // ---------------------------------------------------------------------------
  // Statistics (maphost.py:107-136)

  /** The JSON body of a statistics request; `None` is a key that is absent. */
  datatype StatisticsRequest = StatisticsRequest(startDate: Option<string>, endDate: Option<string>)

  /** Answer of the statistics endpoint: one of the two 400 errors, or the counts per day. */
  datatype StatisticsResponse = MissingDates | BadDateFormat | Counts(counts: map<string, nat>)

  const MissingDatesMessage: string := "Нужно указать начальную и конечную дату"
  const BadDateFormatMessage: string := "Неверный формат даты"

  /** The HTTP status of an answer. */
  function Status(resp: StatisticsResponse): nat
  {
    if resp.Counts? then 200 else 400
  }

  /** The `error` text of a 400 answer. */
  function ErrorMessage(resp: StatisticsResponse): string
    requires !resp.Counts?
  {
    if resp.MissingDates? then MissingDatesMessage else BadDateFormatMessage
  }

  /** Python's `not value` on an optional string: absent or empty. */
  predicate Missing(s: Option<string>)
  {
    s.None? || s.value == ""
  }

  /** The outcome of checking a request: rejected with a response, or the two days of the range. */
  datatype RangeCheck = Rejected(response: StatisticsResponse) | Accepted(start: Dates.Date, end: Dates.Date)

  /** The validation of lines 109-119: both bounds present and both readable as "%Y-%m-%d". */
  function CheckRequest(req: StatisticsRequest): RangeCheck
  {
    if Missing(req.startDate) || Missing(req.endDate) then Rejected(MissingDates)
    else match (Dates.ParseIso(req.startDate.value), Dates.ParseIso(req.endDate.value))
      case (Some(s), Some(e)) => Accepted(s, e)
      case _ => Rejected(BadDateFormat)
  }

  /**
    A request is refused for a missing bound exactly when a bound is absent or
    empty; otherwise it is accepted with days `s` and `e` exactly when the bounds
    are spellings of those real days, and refused for the format otherwise.
  */
  lemma CheckRequestSpec(req: StatisticsRequest, s: Dates.Date, e: Dates.Date)
    ensures CheckRequest(req) == Rejected(MissingDates) <==> Missing(req.startDate) || Missing(req.endDate)
    ensures CheckRequest(req) == Accepted(s, e) <==>
              !Missing(req.startDate) && !Missing(req.endDate)
              && Dates.Valid(s) && req.startDate.value in Dates.IsoSpellings(s)
              && Dates.Valid(e) && req.endDate.value in Dates.IsoSpellings(e)
    ensures CheckRequest(req).Rejected? ==> Status(CheckRequest(req).response) == 400
  {
    if !Missing(req.startDate) && !Missing(req.endDate) {
      Dates.ParseIsoSpellings(req.startDate.value, s);
      Dates.ParseIsoSpellings(req.endDate.value, e);
    }
  }

  /** A record date is counted: not the sentinel, readable as "%Y-%m-%d", and within [start, end]. */
  predicate InRange(date: string, start: Dates.Date, end: Dates.Date)
  {
    date != Dates.UnknownDate && Dates.ParseIso(date).Some?
    && Dates.NotAfter(start, Dates.ParseIso(date).value) && Dates.NotAfter(Dates.ParseIso(date).value, end)
  }

  /** How many records carry the date. */
  function Occurrences(reports: seq<Report>, date: string): nat
  {
    if |reports| == 0 then 0
    else Occurrences(reports[..|reports| - 1], date) + (if reports[|reports| - 1].date == date then 1 else 0)
  }

  /** A date occurs a positive number of times exactly when some record carries it. */
  lemma {:induction false} OccurrencesPositive(reports: seq<Report>, date: string)
    ensures Occurrences(reports, date) > 0 <==> exists i :: 0 <= i < |reports| && reports[i].date == date
  {
    if |reports| > 0 {
      var init := reports[..|reports| - 1];
      OccurrencesPositive(init, date);
      if exists i :: 0 <= i < |init| && init[i].date == date {
        var i :| 0 <= i < |init| && init[i].date == date;
        assert reports[i].date == date;
      }
      if exists i :: 0 <= i < |reports| && reports[i].date == date {
        var i :| 0 <= i < |reports| && reports[i].date == date;
        if i < |init| {
          assert init[i].date == date;
        }
      }
    }
  }

  lemma OccurrencesSnoc(reports: seq<Report>, i: nat)
    requires i < |reports|
    ensures forall d :: Occurrences(reports[..i + 1], d) ==
              Occurrences(reports[..i], d) + (if reports[i].date == d then 1 else 0)
  {
    assert reports[..i + 1][..i] == reports[..i];
  }

  /** A date no record of the prefix carries has no occurrences in it. */
  lemma OccurrencesAbsent(reports: seq<Report>, i: nat, date: string)
    requires i <= |reports|
    requires forall k :: 0 <= k < i ==> reports[k].date != date
    ensures Occurrences(reports[..i], date) == 0
  {
    OccurrencesPositive(reports[..i], date);
  }

  /** The keys of `stats` are the in-range dates of the first `i` records. */
  ghost predicate TalliedKeys(reports: seq<Report>, i: nat, stats: map<string, nat>, start: Dates.Date, end: Dates.Date)
    requires i <= |reports|
  {
    forall d :: d in stats <==> InRange(d, start, end) && exists k :: 0 <= k < i && reports[k].date == d
  }

  /** Each key of `stats` is mapped to its number of occurrences among the first `i` records. */
  ghost predicate TalliedCounts(reports: seq<Report>, i: nat, stats: map<string, nat>)
    requires i <= |reports|
  {
    forall d :: d in stats ==> stats[d] == Occurrences(reports[..i], d)
  }

  /** `stats` holds the counts of the first `i` records within [start, end]. */
  ghost predicate Tallied(reports: seq<Report>, i: nat, stats: map<string, nat>, start: Dates.Date, end: Dates.Date)
    requires i <= |reports|
  {
    TalliedKeys(reports, i, stats, start, end) && TalliedCounts(reports, i, stats)
  }

  /** Adding a date to the keys. */
  lemma TallyCountedKeys(reports: seq<Report>, i: nat, stats: map<string, nat>, start: Dates.Date, end: Dates.Date, count: nat)
    requires i < |reports| && TalliedKeys(reports, i, stats, start, end)
    requires InRange(reports[i].date, start, end)
    ensures TalliedKeys(reports, i + 1, stats[reports[i].date := count], start, end)
  {
  }

  /** Counting one more occurrence of a date. */
  lemma TallyCountedCounts(reports: seq<Report>, i: nat, stats: map<string, nat>, start: Dates.Date, end: Dates.Date)
    requires i < |reports| && Tallied(reports, i, stats, start, end)
    requires InRange(reports[i].date, start, end)
    ensures var date := reports[i].date;
            TalliedCounts(reports, i + 1, stats[date := (if date in stats then stats[date] else 0) + 1])
  {
    var date := reports[i].date;
    OccurrencesSnoc(reports, i);
    if date !in stats {
      OccurrencesAbsent(reports, i, date);
    }
  }

  /** Counting a record whose date lies in the range. */
  lemma TallyCounted(reports: seq<Report>, i: nat, stats: map<string, nat>, start: Dates.Date, end: Dates.Date)
    requires i < |reports| && Tallied(reports, i, stats, start, end)
    requires InRange(reports[i].date, start, end)
    ensures var date := reports[i].date;
            Tallied(reports, i + 1, stats[date := (if date in stats then stats[date] else 0) + 1], start, end)
  {
    var date := reports[i].date;
    TallyCountedKeys(reports, i, stats, start, end, (if date in stats then stats[date] else 0) + 1);
    TallyCountedCounts(reports, i, stats, start, end);
  }

  /** Passing over a record whose date is the sentinel, unreadable, or outside the range. */
  lemma TallySkipped(reports: seq<Report>, i: nat, stats: map<string, nat>, start: Dates.Date, end: Dates.Date)
    requires i < |reports| && Tallied(reports, i, stats, start, end)
    requires !InRange(reports[i].date, start, end)
    ensures Tallied(reports, i + 1, stats, start, end)
  {
    OccurrencesSnoc(reports, i);
  }

  /** Once every record is counted, the tally is the histogram of in-range dates. */
  lemma TallyDone(reports: seq<Report>, stats: map<string, nat>, start: Dates.Date, end: Dates.Date)
    requires Tallied(reports, |reports|, stats, start, end)
    ensures forall d :: d in stats <==> InRange(d, start, end) && exists i :: 0 <= i < |reports| && reports[i].date == d
    ensures forall d :: d in stats ==> stats[d] == Occurrences(reports, d)
    ensures Dates.UnknownDate !in stats
  {
    assert reports[..|reports|] == reports;
  }

  /**
    The counting loop of lines 124-134: the keys are exactly the dates of the
    records in the range, each mapped to how many records carry it; the
    sentinel never appears.
  */
  method CountByDate(reports: seq<Report>, start: Dates.Date, end: Dates.Date) returns (stats: map<string, nat>)
    ensures forall d :: d in stats <==> InRange(d, start, end) && exists i :: 0 <= i < |reports| && reports[i].date == d
    ensures forall d :: d in stats ==> stats[d] == Occurrences(reports, d)
    ensures Dates.UnknownDate !in stats
  {
    stats := map[];
    for i := 0 to |reports|
      invariant Tallied(reports, i, stats, start, end)
    {
      var date := reports[i].date;
      if date == Dates.UnknownDate {
        TallySkipped(reports, i, stats, start, end);
        continue;
      }
      match Dates.ParseIso(date) {
        case None =>
          TallySkipped(reports, i, stats, start, end);
        case Some(day) =>
          if Dates.NotAfter(start, day) && Dates.NotAfter(day, end) {
            TallyCounted(reports, i, stats, start, end);
            stats := stats[date := (if date in stats then stats[date] else 0) + 1];
          } else {
            TallySkipped(reports, i, stats, start, end);
          }
      }
    }
    TallyDone(reports, stats, start, end);
  }

  /**
    `get_statistics`: the two 400 answers of the validation, and otherwise the
    per-day counts of the scanned records within the range.
  */
  method GetStatistics(req: StatisticsRequest, cwd: string, folders: seq<Folder>) returns (resp: StatisticsResponse)
    ensures CheckRequest(req).Rejected? ==> resp == CheckRequest(req).response
    ensures Missing(req.startDate) || Missing(req.endDate) ==>
              Status(resp) == 400 && ErrorMessage(resp) == MissingDatesMessage
    ensures !Missing(req.startDate) && !Missing(req.endDate)
            && (Dates.ParseIso(req.startDate.value).None? || Dates.ParseIso(req.endDate.value).None?) ==>
              Status(resp) == 400 && ErrorMessage(resp) == BadDateFormatMessage
    ensures CheckRequest(req).Accepted? ==>
              var s, e := CheckRequest(req).start, CheckRequest(req).end;
              var reports := Scan(cwd, folders);
              resp.Counts?
              && (forall d :: d in resp.counts <==> InRange(d, s, e) && exists i :: 0 <= i < |reports| && reports[i].date == d)
              && (forall d :: d in resp.counts ==> resp.counts[d] == Occurrences(reports, d))
  {
    match CheckRequest(req) {
      case Rejected(r) =>
        return r;
      case Accepted(s, e) =>
        var reports := LoadReports(cwd, folders);
        var counts := CountByDate(reports, s, e);
        return Counts(counts);
    }
  }

  /**
    Over scanned records the range test on days agrees with comparing the
    record's text to the bounds' texts as strings, and no record with a real
    date is skipped by the parse.
  */
  lemma RangeAsStrings(cwd: string, folders: seq<Folder>, i: nat, start: Dates.Date, end: Dates.Date)
    requires i < |Scan(cwd, folders)|
    requires Dates.Valid(start) && Dates.Valid(end)
    ensures var date := Scan(cwd, folders)[i].date;
            date != Dates.UnknownDate ==>
              Dates.ParseIso(date).Some?
              && (InRange(date, start, end) <==>
                    !Less(date, Dates.Format(start)) && !Less(Dates.Format(end), date))
  {
    var date := Scan(cwd, folders)[i].date;
    ScanDates(cwd, folders);
    assert Scan(cwd, folders)[i] in Scan(cwd, folders);
    if date != Dates.UnknownDate {
      var d := Dates.ParseIso(date).value;
      Dates.FormatOrder(d, start);
      Dates.FormatOrder(end, d);
    }
  }
}
