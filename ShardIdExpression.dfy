/**
 * The shard-scoped system column `sys.shards.id`: an implementation object
 * built for one shard whose value is that shard's number.
 */
module ShardIdExpressions {
  import opened Values
  import opened Symbols

  /** An index (table) name and a shard number within it. */
  datatype ShardId = ShardId(index: string, id: Int32)

  const COLNAME: string := "id"

  /** The description every shard-id expression reports, whatever its shard. */
  const INFO_ID: ReferenceInfo :=
    ReferenceInfo(ReferenceIdent(TableIdent("sys", "shards"), COLNAME), Shard, IntegerType)

  /**
   * The expression for one shard. The only state is the shard it was
   * constructed for, fixed at construction: the datatype value is immutable.
   */
  datatype ShardIdExpression = ShardIdExpression(shardId: ShardId) {

    /** The number of the shard this expression was built for. */
    function Value(): Int32
    {
      shardId.id
    }

    /** The column this expression implements: the INTEGER column "id" of `sys.shards`, at shard granularity. */
    function Info(): (i: ReferenceInfo)
      ensures i.ident == ReferenceIdent(TableIdent("sys", "shards"), COLNAME)
      ensures i.granularity == Shard && i.dataType == IntegerType
    {
      INFO_ID
    }
  }

  /** `value()` is the number of the shard the expression was built with. */
  lemma ValueIsConstructedShard(s: ShardId)
    ensures ShardIdExpression(s).Value() == s.id
  {
  }

  /**
   * Two expressions built for the same shard report the same value. This
   * holds of any function of the single field; that the field never changes
   * after construction is given by the datatype itself, whose values are
   * immutable.
   */
  lemma ValueDeterminedByShard(e1: ShardIdExpression, e2: ShardIdExpression)
    requires e1.shardId == e2.shardId
    ensures e1.Value() == e2.Value()
  {
  }

  /** `info()` does not depend on the shard. */
  lemma InfoIndependentOfShard(e1: ShardIdExpression, e2: ShardIdExpression)
    ensures e1.Info() == e2.Info() == INFO_ID
  {
  }
}
