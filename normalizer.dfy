/** The record normaliser: classifies an uploaded file by its column names,
    adapts the legacy contract export to the current schema, rejects mixed
    batches, and turns a raw contract row into the canonical record the
    matching engine reads (dropping rows whose essential cells are all absent,
    and reading unparseable numbers as zero). */
module Normalizer {
  import opened Common

  // -----------------------------------------------------------------------
  // File classification and batch selection

  datatype FileKind = SpotFile | ContractFile

  /** What the loader sees of one parsed file: its column names and how many
      data rows it has. */
  datatype Header = Header(columns: set<string>, rowCount: nat)

  datatype LoadError = NoValidData | MixedFiles | UnknownAnalysis

  /** Spot is recognised first: a balance-change file has "Coin" and "Amount";
      otherwise a file with "Contract" or "Direction" is a contract file;
      anything else is skipped. */
  function Classify(columns: set<string>): (k: Option<FileKind>)
    ensures k == Some(SpotFile) <==> "Coin" in columns && "Amount" in columns
    ensures k == Some(ContractFile)
        <==> !("Coin" in columns && "Amount" in columns) && ("Contract" in columns || "Direction" in columns)
    ensures k == None
        <==> !("Coin" in columns && "Amount" in columns) && "Contract" !in columns && "Direction" !in columns
  {
    if "Coin" in columns && "Amount" in columns then Some(SpotFile)
    else if "Contract" in columns || "Direction" in columns then Some(ContractFile)
    else None
  }

  /** The distinct tags of the files that were kept. */
  function Tags(files: seq<Header>): set<FileKind>
    decreases |files|
  {
    if files == [] then {}
    else
      var last := files[|files| - 1];
      Tags(files[..|files| - 1]) + (match Classify(last.columns) case Some(k) => {k} case None => {})
  }

  /** Number of data rows in the concatenation of the kept files. */
  function KeptRows(files: seq<Header>): nat
    decreases |files|
  {
    if files == [] then 0
    else
      var last := files[|files| - 1];
      KeptRows(files[..|files| - 1]) + (if Classify(last.columns).Some? then last.rowCount else 0)
  }

  /** Mixed-batch rule: more than one distinct tag. */
  predicate IsMixed(tags: set<FileKind>)
  {
    |tags| > 1
  }

  /** The upload handler's decision: no rows at all, a mixed batch, or the one
      engine to run. */
  function SelectAnalysis(files: seq<Header>): (r: Result<FileKind, LoadError>)
    ensures r == Err(NoValidData) <==> KeptRows(files) == 0
    ensures r == Err(MixedFiles) <==> KeptRows(files) > 0 && IsMixed(Tags(files))
    ensures r.Ok? ==> Tags(files) == {r.value}
  {
    var tags := Tags(files);
    TwoKinds(tags);
    if KeptRows(files) == 0 then Err(NoValidData)
    else if IsMixed(tags) then Err(MixedFiles)
    else if tags == {} then Err(UnknownAnalysis)
    else if SpotFile in tags then Ok(SpotFile)
    else Ok(ContractFile)
  }

  /** There are only two kinds, so a set of tags is mixed exactly when it
      holds both. */
  lemma TwoKinds(tags: set<FileKind>)
    ensures IsMixed(tags) <==> SpotFile in tags && ContractFile in tags
    ensures !IsMixed(tags) && tags != {} ==> tags == {SpotFile} || tags == {ContractFile}
  {
    forall x | x in tags ensures x == SpotFile || x == ContractFile {
      if x.SpotFile? { assert x == SpotFile; } else { assert x == ContractFile; }
    }
    if SpotFile in tags && ContractFile in tags {
      assert tags == {SpotFile, ContractFile};
    } else if SpotFile in tags {
      assert tags == {SpotFile};
    } else if ContractFile in tags {
      assert tags == {ContractFile};
    } else {
      assert tags == {};
    }
  }

  lemma {:induction false} KeptRowsHaveTag(files: seq<Header>)
    requires KeptRows(files) > 0
    ensures Tags(files) != {}
    decreases |files|
  {
    var last := files[|files| - 1];
    if Classify(last.columns).None? || last.rowCount == 0 {
      KeptRowsHaveTag(files[..|files| - 1]);
    }
  }

  lemma {:induction false} TagOfKeptFile(files: seq<Header>, i: nat)
    requires i < |files| && Classify(files[i].columns).Some?
    ensures Classify(files[i].columns).value in Tags(files)
    decreases |files|
  {
    if i < |files| - 1 {
      TagOfKeptFile(files[..|files| - 1], i);
    }
  }

  /** A batch that yields rows is always dispatched or rejected as mixed: the
      "could not determine analysis type" answer never occurs. */
  lemma AlwaysDetermined(files: seq<Header>)
    ensures SelectAnalysis(files) != Err(UnknownAnalysis)
  {
    if KeptRows(files) > 0 {
      KeptRowsHaveTag(files);
    }
  }

  /** Mixed-batch rejection: one spot-signature file and one contract-signature
      file in a batch that has rows is refused as a whole. */
  lemma MixedBatchRejected(files: seq<Header>, i: nat, j: nat)
    requires i < |files| && j < |files|
    requires Classify(files[i].columns) == Some(SpotFile)
    requires Classify(files[j].columns) == Some(ContractFile)
    requires KeptRows(files) > 0
    ensures SelectAnalysis(files) == Err(MixedFiles)
  {
    TagOfKeptFile(files, i);
    TagOfKeptFile(files, j);
    TwoKinds(Tags(files));
  }

  // -----------------------------------------------------------------------
  // Legacy contract export

  const REQUIRED_COLUMNS: set<string> :=
    {"Time(UTC)", "Contract", "Type", "Direction", "Quantity", "Filled Price", "Fee Paid",
     "Cash Flow", "Action", "Funding", "Change"}

  /** A contract file is adapted only when it has a direction column and no
      action column. */
  predicate NeedsLegacyTransform(columns: set<string>)
  {
    "Action" !in columns && "Direction" in columns
  }

  /** The column set after the legacy adapter: "Time" renamed, an "Action"
      column derived, every required column present (absent ones all-NA). */
  function LegacyColumns(columns: set<string>): (r: set<string>)
    ensures r == (columns - {"Time"}) + REQUIRED_COLUMNS
    ensures "Time" !in r && REQUIRED_COLUMNS <= r
  {
    var renamed := if "Time" in columns then columns - {"Time"} + {"Time(UTC)"} else columns;
    var withAction := if "Direction" in renamed then renamed + {"Action"} else renamed;
    withAction + REQUIRED_COLUMNS
  }

  /** Free-text direction to action: "Open" anywhere wins, then "Close";
      anything else, or a missing cell, yields no action. */
  function LegacyAction(direction: Option<string>): (a: Option<string>)
    ensures a == Some("OPEN") <==> direction.Some? && ContainsSub(direction.value, "Open")
    ensures a == Some("CLOSE")
        <==> direction.Some? && !ContainsSub(direction.value, "Open") && ContainsSub(direction.value, "Close")
    ensures a == None
        <==> direction.None? || (!ContainsSub(direction.value, "Open") && !ContainsSub(direction.value, "Close"))
  {
    match direction
    case None => None
    case Some(d) =>
      HasSubIsContains(d, "Open");
      HasSubIsContains(d, "Close");
      if HasSub(d, "Open") then Some("OPEN")
      else if HasSub(d, "Close") then Some("CLOSE")
      else None
  }

  /** ASCII upper-casing. */
  function UpperChar(c: char): (u: char)
    ensures !('a' <= u <= 'z')
    ensures !('a' <= c <= 'z') ==> u == c
  {
    if 'a' <= c <= 'z' then (c as int - 32) as char else c
  }

  function Upper(s: string): (u: string)
    ensures |u| == |s|
    ensures forall i :: 0 <= i < |s| ==> u[i] == UpperChar(s[i])
  {
    seq(|s|, i requires 0 <= i < |s| => UpperChar(s[i]))
  }

  /** Type labels are upper-cased and "FUNDING" becomes "SETTLEMENT". */
  function RemapType(kind: Option<string>): (r: Option<string>)
    ensures r.Some? <==> kind.Some?
    ensures r != Some("FUNDING")
    ensures kind.Some? ==> (r == Some("SETTLEMENT") <==> Upper(kind.value) in {"FUNDING", "SETTLEMENT"})
    ensures kind.Some? && Upper(kind.value) != "FUNDING" ==> r == Some(Upper(kind.value))
  {
    match kind
    case None => None
    case Some(t) =>
      var u := Upper(t);
      if u == "FUNDING" then Some("SETTLEMENT") else Some(u)
  }

  lemma UpperIdempotent(s: string)
    ensures Upper(Upper(s)) == Upper(s)
  {
  }

  /** Adapting a row twice changes nothing more than adapting it once. */
  lemma RemapTypeIdempotent(kind: Option<string>)
    ensures RemapType(RemapType(kind)) == RemapType(kind)
  {
    if kind.Some? {
      var u := Upper(kind.value);
      UpperIdempotent(kind.value);
      if u == "FUNDING" {
        assert Upper("SETTLEMENT") == "SETTLEMENT";
      }
    }
  }

  // -----------------------------------------------------------------------
  // Contract rows

  /** One row of a contract file with the canonical column names; a missing
      column or an empty cell is None / Missing. */
  datatype RawRow = RawRow(
    time: Option<int>,
    contract: Option<string>,
    kind: Option<string>,
    direction: Option<string>,
    action: Option<string>,
    quantity: Num,
    price: Num,
    feePaid: Num,
    cashFlow: Num,
    change: Num)

  /** The legacy adapter on one row: derive the action, remap the type. */
  function LegacyRow(r: RawRow): (o: RawRow)
    ensures o.action == LegacyAction(r.direction) && o.kind == RemapType(r.kind)
    ensures o.(action := r.action, kind := r.kind) == r
  {
    r.(action := LegacyAction(r.direction), kind := RemapType(r.kind))
  }

  function PrepareContractRows(columns: set<string>, rows: seq<RawRow>): (o: seq<RawRow>)
    ensures |o| == |rows|
    ensures forall i :: 0 <= i < |rows| ==>
      o[i] == if NeedsLegacyTransform(columns) then LegacyRow(rows[i]) else rows[i]
  {
    if NeedsLegacyTransform(columns) then seq(|rows|, i requires 0 <= i < |rows| => LegacyRow(rows[i]))
    else rows
  }

  /** The canonical record: time in seconds, every number already coerced. */
  datatype Record = Record(
    time: int,
    contract: Option<string>,
    kind: Option<string>,
    action: Option<string>,
    quantity: real,
    feePaid: real,
    cashFlow: real,
    change: real)

  function RecordTime(r: Record): int { r.time }

  /** "Drop rows where the essential columns are all absent." */
  predicate AllEssentialMissing(r: RawRow)
  {
    r.time.None? && r.contract.None? && r.kind.None? && r.quantity == Missing && r.price == Missing
  }

  function Normalize(r: RawRow): (o: Option<Record>)
    ensures o.Some? <==> !AllEssentialMissing(r) && r.time.Some?
    ensures o.Some? ==>
      (&& o.value.time == r.time.value && o.value.contract == r.contract
       && o.value.kind == r.kind && o.value.action == r.action)
    ensures o.Some? ==>
      (&& o.value.quantity == Coerce(r.quantity) && o.value.feePaid == Coerce(r.feePaid)
       && o.value.cashFlow == Coerce(r.cashFlow) && o.value.change == Coerce(r.change))
  {
    if AllEssentialMissing(r) || r.time.None? then None
    else Some(Record(r.time.value, r.contract, r.kind, r.action,
                     Coerce(r.quantity), Coerce(r.feePaid), Coerce(r.cashFlow), Coerce(r.change)))
  }

  function NormalizeAll(rows: seq<RawRow>): (o: seq<Record>)
    ensures |o| <= |rows|
    decreases |rows|
  {
    if rows == [] then []
    else
      var last := rows[|rows| - 1];
      NormalizeAll(rows[..|rows| - 1]) + (match Normalize(last) case Some(r) => [r] case None => [])
  }

  predicate Survives(r: RawRow) { Normalize(r).Some? }

  /** The normalised ledger is the surviving rows, one record per row in
      order, each that row's normal form. */
  lemma {:induction false} NormalizeAllOfRows(rows: seq<RawRow>)
    ensures |NormalizeAll(rows)| == |Filter(rows, Survives)|
    ensures forall i :: 0 <= i < |NormalizeAll(rows)| ==>
      Survives(Filter(rows, Survives)[i]) && NormalizeAll(rows)[i] == Normalize(Filter(rows, Survives)[i]).value
    decreases |rows|
  {
    if rows != [] {
      NormalizeAllOfRows(rows[..|rows| - 1]);
    }
  }

  /** A row with any essential cell (and a timestamp) present survives, with
      its numbers coerced; an unparseable amount reads as zero. */
  lemma {:induction false} NormalizeAllKeeps(rows: seq<RawRow>, i: nat)
    requires i < |rows| && Normalize(rows[i]).Some?
    ensures Normalize(rows[i]).value in NormalizeAll(rows)
    decreases |rows|
  {
    if i < |rows| - 1 {
      NormalizeAllKeeps(rows[..|rows| - 1], i);
    }
  }
}
