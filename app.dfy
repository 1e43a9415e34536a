/**
 * The upload step of the page (app.py:65-73): the lines read from an
 * uploaded screenshot are turned into observations, and only a non-empty
 * batch is merged into the ledger; otherwise the page warns that nothing
 * was recognised.
 */
module App {
  import opened Records
  import opened Extractor
  import opened LedgerStore

  /** What the page reports after the upload area. */
  datatype Notice = NoUpload | Updated | NothingRecognised

  /** `upload` is the text of the recognised lines of the uploaded image, or
      `None` when no file was chosen. */
  method ProcessUpload(ledger: Ledger, upload: Option<seq<string>>) returns (notice: Notice)
    modifies ledger
    ensures upload.None? ==> notice == NoUpload && ledger.rows == old(ledger.rows)
    ensures upload.Some? ==> ledger.rows == MergeAll(old(ledger.rows), Extracted(upload.value))
    ensures upload.Some? ==> (notice == Updated <==> exists k :: 0 <= k < |upload.value| && ParseLine(upload.value[k]).Some?)
    ensures notice != Updated ==> ledger.rows == old(ledger.rows)
    ensures old(ledger.Valid()) ==> ledger.Valid()
    ensures old(ledger.Valid()) && upload.Some? ==>
              Totals(ledger.rows).played == Totals(old(ledger.rows)).played + |Extracted(upload.value)|
  {
    if upload.None? {
      return NoUpload;
    }
    var lines := upload.value;
    var stats := ExtractStats(lines);
    ExtractedEmpty(lines);
    if stats != [] {
      if ledger.Valid() {
        MergeAllPlayed(ledger.rows, stats);
      }
      ledger.UpdateStats(stats);
      notice := Updated;
    } else {
      notice := NothingRecognised;
    }
  }
}
