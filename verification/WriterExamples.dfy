/** A concrete write that is staged and then refused. */
module WriterExamples {
  import opened Wrappers
  import opened Odf
  import opened CompactionModel
  import opened WriterModel
  import opened WriterLaws
  import CompactionExamples

  const STATE_BLOCK := Block(0, AddData(DataStream(None, None, None, None, None), Some("s")))

  /** A root chain that holds a source state, and neither data nor watermark. */
  const STATEFUL: Hash := CompactionExamples.START + [STATE_BLOCK]

  const FORGET := WriteOpts(0, 0, None, None)

  lemma StatefulFacts()
    ensures Sound(STATEFUL) && NotOlder(STATEFUL, 0)
    ensures var m := ScanMeta(STATEFUL); m.prevWatermark == None && m.prevSourceState == Some("s")
  {
    var start := CompactionExamples.START;
    CompactionExamples.StartIsValid();
    ValidIffAppended(start, STATE_BLOCK);
    LastAppended(start, STATE_BLOCK, AddDataKind);
    assert STATEFUL == start + [STATE_BLOCK] && |STATEFUL| == 3;
    assert STATEFUL[0] == CompactionExamples.SEED && STATEFUL[1] == CompactionExamples.SCHEMA;
    assert STATEFUL[2] == STATE_BLOCK;
  }

  /** Dropping the source state is staged, and then refused as an event without content. */
  lemma ForgettingRefused(env: Env)
    ensures var m := ScanMeta(STATEFUL);
      && OnlyForgets(m, None, FORGET, env)
      && Stage(m, None, FORGET, env).Ok? && Write(m, STATEFUL, None, FORGET, env).result.Err?
  {
    StatefulFacts();
    WriteSucceedsIff(ScanMeta(STATEFUL), None, FORGET, env);
  }
}
