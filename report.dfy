/** The error report: the parameters an error report starts from, and the
    assembler that joins what each kind of errors writes into the header
    line, the report line and the human-readable report. */
module Report {
  import opened Text

  /** What one set of errors writes: its column headers, its values, and
      its values with names. */
  datatype ErrorsText = ErrorsText(header: string, report: string, humanReadable: string)

  /** The options of an error report. Labels are single-precision floats
      in the engine; here they are exact reals. */
  datatype Parameters = Parameters(
    headerOnly: bool,
    reportTed: bool,
    reportRand: bool,
    reportVoi: bool,
    fromSkeleton: bool,
    distanceThreshold: nat,
    gtBackgroundLabel: real,
    haveBackground: bool,
    recBackgroundLabel: real,
    reportDetectionOverlap: bool,
    ignoreBackground: bool,
    growSlices: bool)

  /** The parameters of a default-constructed report. */
  const DefaultParameters: Parameters :=
    Parameters(false, true, false, false, false, 10, 0.0, true, 0.0, false, false, false)

  /** By default only the tolerant edit distance is reported, with a
      tolerance of 10, and both volumes have background label 0. */
  lemma DefaultsReportTedOnly()
    ensures var p := DefaultParameters;
      !p.headerOnly && p.reportTed && !p.reportRand && !p.reportVoi && !p.reportDetectionOverlap &&
      !p.fromSkeleton && p.distanceThreshold == 10 && p.haveBackground &&
      p.gtBackgroundLabel == 0.0 && p.recBackgroundLabel == 0.0 && !p.ignoreBackground && !p.growSlices
  {
  }

  /** One step of the assembly: the separator goes in front of the new part
      only when something has been written already. */
  function Append(acc: string, sep: string, part: string): string {
    (if acc == "" then acc else acc + sep) + part
  }

  /** The string after appending each of parts in turn to an empty one. */
  function Appended(parts: seq<string>, sep: string): string {
    if parts == [] then "" else Append(Appended(parts[..|parts| - 1], sep), sep, parts[|parts| - 1])
  }

  /** The parts from the first non-empty one on. */
  function FromFirstWritten(parts: seq<string>): (r: seq<string>)
    ensures |r| <= |parts|
    ensures r != [] ==> r[0] != ""
  {
    if parts == [] then [] else if parts[0] == "" then FromFirstWritten(parts[1..]) else parts
  }

  lemma {:induction false} FromFirstWrittenSnoc(parts: seq<string>, part: string)
    ensures FromFirstWritten(parts + [part]) ==
            if FromFirstWritten(parts) == [] then FromFirstWritten([part]) else FromFirstWritten(parts) + [part]
  {
    if parts != [] {
      assert (parts + [part])[0] == parts[0];
      assert (parts + [part])[1..] == parts[1..] + [part];
      FromFirstWrittenSnoc(parts[1..], part);
    }
  }

  lemma {:induction false} JoinSnoc(fields: seq<string>, sep: string, field: string)
    requires fields != []
    ensures Join(fields + [field], sep) == Join(fields, sep) + sep + field
  {
    if |fields| == 1 {
      assert (fields + [field])[1..] == [field];
    } else {
      assert (fields + [field])[1..] == fields[1..] + [field];
      JoinSnoc(fields[1..], sep, field);
    }
  }

  lemma {:induction false} JoinStartsWithFirst(fields: seq<string>, sep: string)
    requires fields != []
    ensures |Join(fields, sep)| >= |fields[0]|
  {
  }

  /** The assembled string is the parts from the first non-empty one on,
      joined with the separator: leading empty parts vanish, later empty
      parts still get their separator. */
  lemma {:induction false} AppendedJoins(parts: seq<string>, sep: string)
    ensures Appended(parts, sep) == Join(FromFirstWritten(parts), sep)
  {
    if parts != [] {
      var init, last := parts[..|parts| - 1], parts[|parts| - 1];
      assert parts == init + [last];
      AppendedJoins(init, sep);
      FromFirstWrittenSnoc(init, last);
      var written := FromFirstWritten(init);
      if written != [] {
        JoinStartsWithFirst(written, sep);
        JoinSnoc(written, sep, last);
      }
    }
  }

  /** When every part is non-empty, the parts are joined with the
      separator between each two of them. */
  lemma AppendedAllWritten(parts: seq<string>, sep: string)
    requires forall i | 0 <= i < |parts| :: parts[i] != ""
    ensures Appended(parts, sep) == Join(parts, sep)
  {
    AppendedJoins(parts, sep);
    assert parts != [] ==> parts[0] != "";
  }

  function Headers(inputs: seq<ErrorsText>): (r: seq<string>)
    ensures |r| == |inputs| && forall i | 0 <= i < |inputs| :: r[i] == inputs[i].header
  {
    seq(|inputs|, i requires 0 <= i < |inputs| => inputs[i].header)
  }

  function Reports(inputs: seq<ErrorsText>): (r: seq<string>)
    ensures |r| == |inputs| && forall i | 0 <= i < |inputs| :: r[i] == inputs[i].report
  {
    seq(|inputs|, i requires 0 <= i < |inputs| => inputs[i].report)
  }

  function HumanReadables(inputs: seq<ErrorsText>): (r: seq<string>)
    ensures |r| == |inputs| && forall i | 0 <= i < |inputs| :: r[i] == inputs[i].humanReadable
  {
    seq(|inputs|, i requires 0 <= i < |inputs| => inputs[i].humanReadable)
  }

  /** The three strings after the first k inputs. */
  ghost predicate AssembledUpTo(inputs: seq<ErrorsText>, k: nat, headerOnly: bool,
                                header: string, report: string, humanReadable: string)
    requires k <= |inputs|
  {
    header == Appended(Headers(inputs[..k]), "\t") &&
    report == (if headerOnly then "" else Appended(Reports(inputs[..k]), "\t")) &&
    humanReadable == (if headerOnly then "" else Appended(HumanReadables(inputs[..k]), "; "))
  }

  lemma AssembledStep(inputs: seq<ErrorsText>, k: nat)
    requires k < |inputs|
    ensures Headers(inputs[..k + 1]) == Headers(inputs[..k]) + [inputs[k].header]
    ensures Reports(inputs[..k + 1]) == Reports(inputs[..k]) + [inputs[k].report]
    ensures HumanReadables(inputs[..k + 1]) == HumanReadables(inputs[..k]) + [inputs[k].humanReadable]
  {
  }

  /** The process node that assembles the report lines of its inputs. */
  class ReportAssembler {
    /** Only the header is wanted. */
    const headerOnly: bool
    var reportHeader: string
    var report: string
    var humanReadableReport: string

    constructor (headerOnly: bool)
      ensures this.headerOnly == headerOnly
    {
      this.headerOnly := headerOnly;
    }

    /** updateOutputs: the headers of the inputs joined with tabs, their
        values joined with tabs and their human-readable forms joined with
        "; ", each separator written only after something non-empty; with
        headerOnly the two reports stay empty. */
    method UpdateOutputs(inputs: seq<ErrorsText>)
      modifies this`reportHeader, this`report, this`humanReadableReport
      ensures reportHeader == Appended(Headers(inputs), "\t")
      ensures report == if headerOnly then "" else Appended(Reports(inputs), "\t")
      ensures humanReadableReport == if headerOnly then "" else Appended(HumanReadables(inputs), "; ")
    {
      reportHeader, report, humanReadableReport := "", "", "";
      for k := 0 to |inputs|
        invariant AssembledUpTo(inputs, k, headerOnly, reportHeader, report, humanReadableReport)
      {
        AssembledStep(inputs, k);
        if reportHeader != "" {
          reportHeader := reportHeader + "\t";
        }
        reportHeader := reportHeader + inputs[k].header;
        if !headerOnly {
          if report != "" {
            report := report + "\t";
          }
          if humanReadableReport != "" {
            humanReadableReport := humanReadableReport + "; ";
          }
          report := report + inputs[k].report;
          humanReadableReport := humanReadableReport + inputs[k].humanReadable;
        }
      }
      assert inputs[..|inputs|] == inputs;
    }
  }
}
