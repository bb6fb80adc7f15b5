/**
  The best-effort initialisation of the symbol database at startup. The
  symbol master is an outside collaborator: its list of tables is an
  input, and its bulk ingestion is a function from the list of source
  URLs to success or a failure reason.
 */
module AutoInit {

  /** The exchange symbol files fetched on first run, in order: cash
      market, futures and options, currency derivatives. */
  const SymbolUrls: seq<string> := [
    "https://public.fyers.in/sym_details/NSE_CM.csv",
    "https://public.fyers.in/sym_details/NSE_FO.csv",
    "https://public.fyers.in/sym_details/NSE_CD.csv"
  ]

  /** What `process_all` does: return normally, or raise an `Exception`
      with a reason. */
  datatype Ingestion = IngestOk | IngestErr(reason: string)

  /** How `auto_init_database` ended when ingestion returned or raised an
      `Exception`; none of these is an error for the caller. */
  datatype InitOutcome =
    | Skipped(tables: seq<string>)
    | Initialized
    | FailedNonFatal(reason: string)

  /** The calls made to the ingestion entry point, and the outcome. */
  datatype InitRun = InitRun(ingestCalls: seq<seq<string>>, outcome: InitOutcome)

  /** `auto_init_database`: ingest the three symbol files only when the
      database has no tables, and turn an ingestion failure raised as an
      `Exception` into a non-fatal outcome instead of letting it escape. */
  function AutoInitDatabase(tables: seq<string>, processAll: seq<string> -> Ingestion): (run: InitRun)
    ensures |run.ingestCalls| <= 1
    ensures run.ingestCalls == [] <==> |tables| > 0
    ensures forall k :: 0 <= k < |run.ingestCalls| ==> run.ingestCalls[k] == SymbolUrls
    ensures run.outcome.Skipped? <==> |tables| > 0
    ensures run.outcome.Skipped? ==> run.outcome.tables == tables
    ensures run.outcome == Initialized <==> |tables| == 0 && processAll(SymbolUrls) == IngestOk
    ensures run.outcome.FailedNonFatal? <==> |tables| == 0 && processAll(SymbolUrls).IngestErr?
    ensures run.outcome.FailedNonFatal? ==> processAll(SymbolUrls) == IngestErr(run.outcome.reason)
  {
    if |tables| == 0 then
      match processAll(SymbolUrls)
      case IngestOk => InitRun([SymbolUrls], Initialized)
      case IngestErr(e) => InitRun([SymbolUrls], FailedNonFatal(e))
    else
      InitRun([], Skipped(tables))
  }

  /** A populated database never reaches the collaborator: the run is the
      same whatever ingestion would have done. */
  lemma PopulatedIgnoresIngestion(tables: seq<string>, p1: seq<string> -> Ingestion,
                                  p2: seq<string> -> Ingestion)
    requires |tables| > 0
    ensures AutoInitDatabase(tables, p1) == AutoInitDatabase(tables, p2)
  {
  }

  /** On an empty database the run depends on nothing but what ingestion
      of the three symbol files returns. */
  lemma EmptyDependsOnlyOnSymbolFiles(p1: seq<string> -> Ingestion, p2: seq<string> -> Ingestion)
    requires p1(SymbolUrls) == p2(SymbolUrls)
    ensures AutoInitDatabase([], p1) == AutoInitDatabase([], p2)
  {
  }

  /** `auto_init_database` keeps no failure state of its own: after a
      failed run, any later start that still finds no tables calls
      ingestion again with the same three files, whatever it returns. */
  lemma NoFailureState(p1: seq<string> -> Ingestion, p2: seq<string> -> Ingestion)
    requires AutoInitDatabase([], p1).outcome.FailedNonFatal?
    ensures AutoInitDatabase([], p2).ingestCalls == [SymbolUrls]
  {
  }
}
