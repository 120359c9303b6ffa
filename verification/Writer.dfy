/** The writer as an object, and the dataset that it commits to. */
module Writer {
  import opened Wrappers
  import opened Odf
  import opened WriterModel
  import opened WriterLaws
  import opened WriterEffects

  class Dataset {
    var head: Hash

    constructor (head: Hash)
      ensures this.head == head
    {
      this.head := head;
    }

    /** Appends the block and moves the head, if the head is still the expected one. */
    method Commit(expected: Hash, block: Block) returns (r: Result<Hash, CommitError>)
      modifies this
      ensures r == CommitEvent(old(head), expected, block)
      ensures head == if r.Ok? then r.value else old(head)
      ensures r.Ok? ==> old(head) == expected && Validate(expected, block).Accepted? && head == old(head) + [block]
    {
      var appended := Append(expected, block);
      if appended.Err? {
        return Err(InvalidBlock(appended.error));
      }
      if head != expected {
        return Err(RefCasFailed(expected, head));
      }
      head := appended.value;
      r := Ok(head);
    }
  }

  class DataWriter {
    const dataset: Dataset
    const env: Env
    var meta: Meta

    /** The state kept is that of a scan, on a chain that this writer may extend. */
    ghost predicate Valid()
      reads this
    {
      Coherent(meta) && Sound(meta.head)
    }

    constructor (dataset: Dataset, env: Env)
      requires Sound(dataset.head)
      ensures Valid() && this.dataset == dataset && this.env == env && meta == ScanMeta(dataset.head)
    {
      this.dataset := dataset;
      this.env := env;
      this.meta := ScanMeta(dataset.head);
    }

    method CommitSchema(schema: Schema, systemTime: Time) returns (r: Result<Hash, CommitError>)
      modifies this, dataset
      ensures r == CommitEvent(old(dataset.head), old(meta.head), Block(systemTime, SetDataSchema(schema)))
      ensures r.Ok? ==> dataset.head == r.value && meta == old(meta).(head := r.value, schema := Some(schema))
      ensures r.Err? ==> dataset.head == old(dataset.head) && meta == old(meta)
    {
      r := dataset.Commit(meta.head, Block(systemTime, SetDataSchema(schema)));
      if r.Ok? {
        meta := meta.(head := r.value, schema := Some(schema));
      }
    }

    method CommitAddData(p: AddDataParams, file: Option<File>, systemTime: Time) returns (r: Result<Block, CommitError>)
      requires file.Some? <==> p.newOffsetInterval.Some?
      modifies this, dataset
      ensures var block := Block(systemTime, PrepareAddData(p, file));
        var committed := CommitEvent(old(dataset.head), old(meta.head), block);
        if committed.Ok? then
          && r == Ok(block) && dataset.head == committed.value
          && meta == NoteAddData(old(meta), committed.value, block.event)
        else
          r == Err(committed.error) && dataset.head == old(dataset.head) && meta == old(meta)
    {
      var block := Block(systemTime, PrepareAddData(p, file));
      var committed := dataset.Commit(meta.head, block);
      if committed.Err? {
        return Err(committed.error);
      }
      meta := meta.(head := committed.value);
      var data := block.event.stream.newData;
      if data.Some? {
        meta := meta.(prevOffset := Some(data.value.end));
        meta := meta.(dataSlices := meta.dataSlices + [data.value.physicalHash]);
      }
      meta := meta.(prevCheckpoint := CheckpointHash(block.event.stream.newCheckpoint));
      meta := meta.(prevWatermark := block.event.stream.newWatermark);
      meta := meta.(prevSourceState := block.event.sourceState);
      r := Ok(block);
    }

    method Commit(s: Staged) returns (r: Result<WriteResult, WriteError>)
      requires Valid() && StagedFrom(meta, s)
      modifies this, dataset
      ensures Valid()
      ensures var a := CommitStaged(old(meta), old(dataset.head), s);
        r == a.result && meta == a.meta && dataset.head == a.head
      ensures old(dataset.head) != old(meta.head) ==> r.Err? && dataset.head == old(dataset.head) && meta == old(meta)
      ensures old(dataset.head) == old(meta.head) ==>
        && dataset.head == meta.head == old(meta.head) + Appended(old(meta), s)
        && (r.Ok? <==> NotOlder(old(meta.head), s.systemTime) && DataPasses(old(meta), s))
      ensures r.Ok? ==>
        && r.value.oldHead == old(meta.head) && r.value.newHead == meta.head == dataset.head
        && (r.value.addDataBlock.Some? <==> s.addData.Some?)
        && (r.value.addDataBlock.Some? ==>
              dataset.head != [] && dataset.head[|dataset.head| - 1] == r.value.addDataBlock.value)
    {
      CommitReported(meta, dataset.head, s);
      if dataset.head == meta.head {
        CommitAppends(meta, s);
      } else {
        StaleCommitRefused(meta, dataset.head, s);
      }
      var oldHead := meta.head;
      if s.newSchema.Some? {
        var committed := CommitSchema(s.newSchema.value, s.systemTime);
        if committed.Err? {
          return Err(CommitFailed(committed.error));
        }
      }
      var block: Option<Block> := None;
      if s.addData.Some? {
        var committed := CommitAddData(s.addData.value, s.dataFile, s.systemTime);
        if committed.Err? {
          return Err(CommitFailed(committed.error));
        }
        block := Some(committed.value);
      }
      r := Ok(WriteResult(oldHead, meta.head, block));
    }

    method Write(data: Option<RawData>, opts: WriteOpts) returns (r: Result<WriteResult, WriteError>)
      requires Valid()
      modifies this, dataset
      ensures Valid()
      ensures var a := WriterModel.Write(old(meta), old(dataset.head), data, opts, env);
        r == a.result && meta == a.meta && dataset.head == a.head
      ensures old(dataset.head) == old(meta.head) ==>
        (r.Ok? <==>
          && Stage(old(meta), data, opts, env).Ok?
          && NotOlder(old(meta.head), opts.systemTime)
          && !(data.Some? && Lowers(old(meta.prevWatermark), opts.newWatermark))
          && !OnlyForgets(old(meta), data, opts, env))
      ensures r.Ok? ==> r.value.oldHead == old(meta.head) && r.value.newHead == dataset.head
      ensures r.Ok? ==> Written(old(meta.head), dataset.head, Reversed(old(meta.dataSlices)), data, opts, env)
    {
      var staged := Stage(meta, data, opts, env);
      if staged.Err? {
        return Err(StageFailed(staged.error));
      }
      StageFits(meta, data, opts, env);
      WriteSucceedsIff(meta, data, opts, env);
      if WriterModel.Write(meta, meta.head, data, opts, env).result.Ok? {
        WriteEffect(meta, data, opts, env);
      }
      r := Commit(staged.value);
    }

    method WriteWatermark(watermark: Time, opts: WriteOpts) returns (r: Result<WriteResult, WriteError>)
      requires Valid()
      modifies this, dataset
      ensures Valid()
      ensures var a := WriterModel.WriteWatermark(old(meta), old(dataset.head), watermark, opts);
        r == a.result && meta == a.meta && dataset.head == a.head
      ensures r.Ok? ==>
        ChainWatermark(dataset.head) == Some(watermark) && HeadState(dataset.head) == opts.newSourceState
    {
      var staged := StageWatermark(meta, watermark, opts);
      if staged.Err? {
        return Err(StageFailed(staged.error));
      }
      WatermarkFits(meta, watermark, opts);
      if WriterModel.WriteWatermark(meta, meta.head, watermark, opts).result.Ok? {
        WatermarkEffect(meta, watermark, opts);
      }
      r := Commit(staged.value);
    }
  }
}
