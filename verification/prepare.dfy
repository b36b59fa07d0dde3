/** The transform inside `prepare_data` of the training-data script: the
    same steps as the server's `preprocess_data`, except that the
    `Timestamp` column is parsed unconditionally, before the `astype` call. */
module PrepareScript {
  import opened Wrappers
  import opened Pipeline

  function PrepareData(t: RawTable): (r: Result<seq<FeatureRow>, PipelineError>)
    ensures !t.hasTimestamp ==> r == Failure(MissingColumn("Timestamp"))
    ensures t.hasTimestamp ==> (r.Success? <==> ServiceColumnValid(t.rows))
  {
    EncodeServicesCharacterised(t.rows);
    if !t.hasTimestamp then Failure(MissingColumn("Timestamp"))
    else
      var codes :- EncodeServices(t.rows);
      Success(Transform(t, codes))
  }

  /** With a `Timestamp` column the script and the server compute the same
      table. Without one both fail, and they differ only in which error a
      bad service column hides: the script reports the missing column first. */
  lemma PrepareMatchesPreprocess(t: RawTable)
    ensures t.hasTimestamp ==> PrepareData(t) == PreprocessData(t)
    ensures !t.hasTimestamp ==> PrepareData(t).Failure? && PreprocessData(t).Failure?
    ensures !t.hasTimestamp ==>
      (PrepareData(t) == PreprocessData(t) <==> ServiceColumnValid(t.rows))
  {
  }
}
