/** Data contracts: what a dataset's columns are called, how they are typed, tagged and constrained. */
module Contract {
  import opened Sequences

  datatype RangeRule = RangeRule(min: Option<real>, max: Option<real>)

  datatype ColumnPolicy = ColumnPolicy(
    name: string,
    dataType: string,
    required: bool,
    regex: Option<string>,
    range: Option<RangeRule>,
    allowedValues: Option<seq<string>>,
    tags: Option<seq<string>>)

  datatype DataContract = DataContract(name: string, version: string, columns: seq<ColumnPolicy>)

  /** No two columns share a name. */
  predicate DistinctNames(c: DataContract) {
    forall i, j :: 0 <= i < j < |c.columns| ==> c.columns[i].name != c.columns[j].name
  }

  function TagsOf(col: ColumnPolicy): seq<string> {
    if col.tags.Some? then col.tags.value else []
  }
}
