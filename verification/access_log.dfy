/**
  The filter installed on the web server's access logger so that request
  lines for the broker's authentication callback, whose query string
  carries an auth code, never reach the logs.
 */
module AccessLog {
  import opened Text

  /** The callback path whose access-log lines are suppressed. */
  const CallbackPath: string := "/fyers/callback"

  /** A log record, reduced to its rendered message (`record.getMessage()`). */
  datatype LogRecord = LogRecord(message: string)

  /** `AccessLogFilter.filter`: true keeps the record, false drops it. A
      record is dropped exactly when the callback path occurs somewhere in
      its message. */
  function AccessLogFilter(record: LogRecord): (keep: bool)
    ensures keep <==> forall i :: !OccursAt(record.message, CallbackPath, i)
  {
    !Contains(record.message, CallbackPath)
  }

  /** Any request line that mentions the callback path, whatever surrounds
      it (method, query string, status), is dropped. */
  lemma CallbackLinesDropped(before: string, after: string)
    ensures !AccessLogFilter(LogRecord(before + CallbackPath + after))
  {
    var m := before + CallbackPath + after;
    assert m[|before|..|before| + |CallbackPath|] == CallbackPath;
    assert OccursAt(m, CallbackPath, |before|);
  }

  /** A dropped record always has the callback path at some position. */
  lemma DroppedLinesMentionCallback(record: LogRecord)
    requires !AccessLogFilter(record)
    ensures exists before, after :: record.message == before + CallbackPath + after
  {
    var m := record.message;
    var i :| OccursAt(m, CallbackPath, i);
    assert m == m[..i] + CallbackPath + m[i + |CallbackPath|..];
  }

  /** A message with no '/' cannot mention the path, so it is kept. */
  lemma MessagesWithoutSlashKept(record: LogRecord)
    requires '/' !in record.message
    ensures AccessLogFilter(record)
  {
    var m := record.message;
    forall i | 0 <= i && i + |CallbackPath| <= |m|
      ensures !OccursAt(m, CallbackPath, i)
    {
      assert m[i..i + |CallbackPath|][0] == m[i] != CallbackPath[0];
    }
  }
}
