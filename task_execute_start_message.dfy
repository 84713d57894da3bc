/**
 * TaskExecuteStartMessage: the typed message that carries a task dispatch.
 * Lombok's @Data gives it a setter per field, @NoArgsConstructor the default
 * constructor, and @EqualsAndHashCode(callSuper = true) a field-wise equals
 * and hashCode that also take in the BaseMessage part.
 */
module TaskExecuteStart {
  import opened JavaPrimitives
  import RemoteMessage

  /**
   * The BaseMessage part: the three fields the three-argument constructor
   * forwards. BaseMessage itself is not part of this model beyond them.
   */
  datatype BaseMessage = BaseMessage(
    messageSenderAddress: Option<string>,
    messageReceiverAddress: Option<string>,
    messageSendTime: Long)

  /** Every field that the generated equals and hashCode look at, as one value. */
  datatype StartMessageFields = StartMessageFields(
    base: BaseMessage,
    executorId: Int,
    executorName: Option<string>,
    projectCode: Long,
    taskDefinitionCode: Long,
    taskDefinitionVersion: Int,
    warningGroupId: Int,
    workerGroup: Option<string>,
    environmentCode: Option<Long>,
    startParams: Option<map<string, string>>,
    tenantCode: Option<string>,
    dryRun: Int)

  /** A fresh message: primitives 0, references null, the given BaseMessage part. */
  function DefaultFields(base: BaseMessage): StartMessageFields
  {
    StartMessageFields(base, 0, None, 0, 0, 0, 0, None, None, None, None, 0)
  }

  /**
   * The hash codes of parts this model does not define: super.hashCode() of
   * the BaseMessage part, and Map.hashCode of the start parameters.
   */
  datatype UnseenHashes = UnseenHashes(
    baseHash: BaseMessage -> Int,
    mapHash: map<string, string> -> Int)

  /** One step of Lombok's hash: `result * 59 + fieldHash` in int arithmetic. */
  function HashStep(result: Int, fieldHash: Int): Int
  {
    WrapInt(result as int * 59 + fieldHash as int)
  }

  /** Folds the hashes, first to last, into the running result. */
  function FoldHashes(result: Int, fieldHashes: seq<Int>): Int
    decreases |fieldHashes|
  {
    if fieldHashes == [] then result
    else FoldHashes(HashStep(result, fieldHashes[0]), fieldHashes[1..])
  }

  /** A reference field contributes 43 when null, else its own hashCode. */
  function NullableHash<T>(x: Option<T>, hash: T -> Int): Int
  {
    if x.None? then 43 else hash(x.value)
  }

  /**
   * The generated hashCode: `result` starts at super.hashCode(), then each
   * field is folded in as `result * 59 + hash`.
   */
  function StartMessageHash(f: StartMessageFields, unseen: UnseenHashes): Int
  {
    FoldHashes(unseen.baseHash(f.base), FieldHashes(f, unseen))
  }

  /**
   * What each declared field contributes to the hash, in the order Lombok
   * emits them: primitive fields first, then the boxed environmentCode, then
   * the other references, each group in declaration order.
   */
  function FieldHashes(f: StartMessageFields, unseen: UnseenHashes): (hs: seq<Int>)
    ensures |hs| == 11
  {
    LeadingHashes(f) + [f.dryRun] + TrailingHashes(f, unseen)
  }

  /** The primitive fields before dryRun. */
  function LeadingHashes(f: StartMessageFields): (hs: seq<Int>)
    ensures |hs| == 5
  {
    [
      f.executorId,
      LongHashCode(f.projectCode),
      LongHashCode(f.taskDefinitionCode),
      f.taskDefinitionVersion,
      f.warningGroupId]
  }

  /** The boxed environmentCode and the other references, which follow dryRun. */
  function TrailingHashes(f: StartMessageFields, unseen: UnseenHashes): (hs: seq<Int>)
    ensures |hs| == 5
  {
    [
      NullableHash(f.environmentCode, LongHashCode),
      NullableHash(f.executorName, StringHashCode),
      NullableHash(f.workerGroup, StringHashCode),
      NullableHash(f.startParams, unseen.mapHash),
      NullableHash(f.tenantCode, StringHashCode)]
  }

  function Pow59(n: nat): nat
  {
    if n == 0 then 1 else 59 * Pow59(n - 1)
  }

  class TaskExecuteStartMessage {
    var base: BaseMessage
    var executorId: Int
    var executorName: Option<string>
    var projectCode: Long
    var taskDefinitionCode: Long
    var taskDefinitionVersion: Int
    var warningGroupId: Int
    var workerGroup: Option<string>
    /** A boxed Long, so it may be null, unlike the primitive codes above. */
    var environmentCode: Option<Long>
    var startParams: Option<map<string, string>>
    var tenantCode: Option<string>
    var dryRun: Int

    function Fields(): StartMessageFields
      reads this
    {
      StartMessageFields(base, executorId, executorName, projectCode, taskDefinitionCode,
        taskDefinitionVersion, warningGroupId, workerGroup, environmentCode, startParams,
        tenantCode, dryRun)
    }

    /** The no-argument constructor: every field at its Java default. */
    constructor ()
      ensures Fields() == DefaultFields(BaseMessage(None, None, 0))
    {
      base := BaseMessage(None, None, 0);
      executorId, executorName, projectCode, taskDefinitionCode := 0, None, 0, 0;
      taskDefinitionVersion, warningGroupId, workerGroup := 0, 0, None;
      environmentCode, startParams, tenantCode, dryRun := None, None, None, 0;
    }

    /** The three-argument constructor hands its arguments unchanged to the BaseMessage part. */
    constructor WithAddresses(messageSenderAddress: Option<string>, messageReceiverAddress: Option<string>,
                              messageSendTime: Long)
      ensures base.messageSenderAddress == messageSenderAddress
      ensures base.messageReceiverAddress == messageReceiverAddress
      ensures base.messageSendTime == messageSendTime
      ensures Fields() == DefaultFields(base)
    {
      base := BaseMessage(messageSenderAddress, messageReceiverAddress, messageSendTime);
      executorId, executorName, projectCode, taskDefinitionCode := 0, None, 0, 0;
      taskDefinitionVersion, warningGroupId, workerGroup := 0, 0, None;
      environmentCode, startParams, tenantCode, dryRun := None, None, None, 0;
    }

    /** getCommandType: always TASK_EXECUTE_START. */
    function GetCommandType(): RemoteMessage.MessageType
    {
      RemoteMessage.TaskExecuteStart
    }

    /**
     * The generated equals: the same object, or another TaskExecuteStartMessage
     * whose BaseMessage part (super.equals) and every declared field are equal.
     */
    function Equals(o: object?): (eq: bool)
      reads this, o
      ensures eq <==> o is TaskExecuteStartMessage && Fields() == (o as TaskExecuteStartMessage).Fields()
    {
      if o == this then true
      else if !(o is TaskExecuteStartMessage) then false
      else
        var other := o as TaskExecuteStartMessage;
        && base == other.base
        && executorId == other.executorId
        && executorName == other.executorName
        && projectCode == other.projectCode
        && taskDefinitionCode == other.taskDefinitionCode
        && taskDefinitionVersion == other.taskDefinitionVersion
        && warningGroupId == other.warningGroupId
        && workerGroup == other.workerGroup
        && environmentCode == other.environmentCode
        && startParams == other.startParams
        && tenantCode == other.tenantCode
        && dryRun == other.dryRun
    }

    /** The generated hashCode, given the hash codes this model does not define. */
    function HashCode(unseen: UnseenHashes): Int
      reads this
    {
      StartMessageHash(Fields(), unseen)
    }

    method SetExecutorId(executorId: Int)
      modifies this
      ensures Fields() == old(Fields()).(executorId := executorId)
    {
      this.executorId := executorId;
    }

    method SetExecutorName(executorName: Option<string>)
      modifies this
      ensures Fields() == old(Fields()).(executorName := executorName)
    {
      this.executorName := executorName;
    }

    method SetProjectCode(projectCode: Long)
      modifies this
      ensures Fields() == old(Fields()).(projectCode := projectCode)
    {
      this.projectCode := projectCode;
    }

    method SetTaskDefinitionCode(taskDefinitionCode: Long)
      modifies this
      ensures Fields() == old(Fields()).(taskDefinitionCode := taskDefinitionCode)
    {
      this.taskDefinitionCode := taskDefinitionCode;
    }

    method SetTaskDefinitionVersion(taskDefinitionVersion: Int)
      modifies this
      ensures Fields() == old(Fields()).(taskDefinitionVersion := taskDefinitionVersion)
    {
      this.taskDefinitionVersion := taskDefinitionVersion;
    }

    method SetWarningGroupId(warningGroupId: Int)
      modifies this
      ensures Fields() == old(Fields()).(warningGroupId := warningGroupId)
    {
      this.warningGroupId := warningGroupId;
    }

    method SetWorkerGroup(workerGroup: Option<string>)
      modifies this
      ensures Fields() == old(Fields()).(workerGroup := workerGroup)
    {
      this.workerGroup := workerGroup;
    }

    method SetEnvironmentCode(environmentCode: Option<Long>)
      modifies this
      ensures Fields() == old(Fields()).(environmentCode := environmentCode)
    {
      this.environmentCode := environmentCode;
    }

    method SetStartParams(startParams: Option<map<string, string>>)
      modifies this
      ensures Fields() == old(Fields()).(startParams := startParams)
    {
      this.startParams := startParams;
    }

    method SetTenantCode(tenantCode: Option<string>)
      modifies this
      ensures Fields() == old(Fields()).(tenantCode := tenantCode)
    {
      this.tenantCode := tenantCode;
    }

    method SetDryRun(dryRun: Int)
      modifies this
      ensures Fields() == old(Fields()).(dryRun := dryRun)
    {
      this.dryRun := dryRun;
    }
  }

  /** The command type does not depend on any field. */
  lemma CommandTypeIsTaskExecuteStart(m: TaskExecuteStartMessage)
    ensures m.GetCommandType() == RemoteMessage.TaskExecuteStart
  {
  }

  /** equals is false for null and for objects of any other class. */
  lemma EqualsRejectsOtherClasses(m: TaskExecuteStartMessage, o: object?)
    requires !(o is TaskExecuteStartMessage)
    ensures !m.Equals(o)
  {
  }

  lemma EqualsReflexive(a: TaskExecuteStartMessage)
    ensures a.Equals(a)
  {
  }

  lemma EqualsSymmetric(a: TaskExecuteStartMessage, b: TaskExecuteStartMessage)
    ensures a.Equals(b) == b.Equals(a)
  {
  }

  lemma EqualsTransitive(a: TaskExecuteStartMessage, b: TaskExecuteStartMessage, c: TaskExecuteStartMessage)
    requires a.Equals(b) && b.Equals(c)
    ensures a.Equals(c)
  {
  }

  /** Two messages that differ only in their BaseMessage part are not equal. */
  lemma EqualsComparesBaseMessage(a: TaskExecuteStartMessage, b: TaskExecuteStartMessage)
    requires a.base != b.base
    ensures !a.Equals(b)
  {
  }

  /** Equal messages have equal hash codes, whatever the hash codes of the unseen parts are. */
  lemma EqualMessagesHaveEqualHashCodes(a: TaskExecuteStartMessage, b: TaskExecuteStartMessage,
                                        unseen: UnseenHashes)
    requires a.Equals(b)
    ensures a.HashCode(unseen) == b.HashCode(unseen)
  {
  }

  /** The last hash folded in is the last step of the fold. */
  lemma {:induction false} FoldHashesSnoc(result: Int, xs: seq<Int>, x: Int)
    ensures FoldHashes(result, xs + [x]) == HashStep(FoldHashes(result, xs), x)
    decreases |xs|
  {
    if xs == [] {
      assert xs + [x] == [x];
      assert [x][1..] == [];
    } else {
      assert (xs + [x])[0] == xs[0];
      assert (xs + [x])[1..] == xs[1..] + [x];
      FoldHashesSnoc(HashStep(result, xs[0]), xs[1..], x);
    }
  }

  /** Folding a concatenation folds the first part, then the second from there. */
  lemma {:induction false} FoldHashesAppend(result: Int, xs: seq<Int>, ys: seq<Int>)
    ensures FoldHashes(result, xs + ys) == FoldHashes(FoldHashes(result, xs), ys)
    decreases |xs|
  {
    if xs == [] {
      assert xs + ys == ys;
    } else {
      assert (xs + ys)[0] == xs[0];
      assert (xs + ys)[1..] == xs[1..] + ys;
      FoldHashesAppend(HashStep(result, xs[0]), xs[1..], ys);
    }
  }

  lemma MulAssociative(a: int, b: int, c: int)
    ensures a * b * c == a * (b * c)
  {
  }

  /**
   * Every hash folded in after a point multiplies a difference in the running
   * result there by 59, modulo 2^32.
   */
  lemma {:induction false} FoldHashesSeedShift(r1: Int, r2: Int, ys: seq<Int>)
    ensures (FoldHashes(r1, ys) as int - FoldHashes(r2, ys) as int
             - (r1 as int - r2 as int) * Pow59(|ys|)) % 0x1_0000_0000 == 0
    decreases |ys|
  {
    if ys != [] {
      var a, b := HashStep(r1, ys[0]), HashStep(r2, ys[0]);
      var dr := r1 as int - r2 as int;
      var p := Pow59(|ys| - 1);
      FoldHashesSeedShift(a, b, ys[1..]);
      WrapIntDifference(r1 as int * 59 + ys[0] as int, r2 as int * 59 + ys[0] as int);
      assert (a as int - b as int - dr * 59) % 0x1_0000_0000 == 0;
      CongruentScaled(FoldHashes(a, ys[1..]) as int - FoldHashes(b, ys[1..]) as int,
                      a as int - b as int, dr * 59, p);
      assert Pow59(|ys|) == 59 * p;
      MulAssociative(dr, 59, p);
    }
  }

  /**
   * Changing one hash in the sequence changes the fold by that change times
   * 59 to the power of the number of hashes after it, modulo 2^32.
   */
  lemma {:induction false} FoldHashesPointShift(start: Int, prefix: seq<Int>, x: Int, y: Int, suffix: seq<Int>)
    ensures (FoldHashes(start, prefix + [y] + suffix) as int - FoldHashes(start, prefix + [x] + suffix) as int
             - (y as int - x as int) * Pow59(|suffix|)) % 0x1_0000_0000 == 0
  {
    var r := FoldHashes(start, prefix);
    var a, b := HashStep(r, y), HashStep(r, x);
    assert FoldHashes(start, prefix + [x] + suffix) == FoldHashes(b, suffix) by {
      FoldHashesAppend(start, prefix + [x], suffix);
      FoldHashesSnoc(start, prefix, x);
    }
    assert FoldHashes(start, prefix + [y] + suffix) == FoldHashes(a, suffix) by {
      FoldHashesAppend(start, prefix + [y], suffix);
      FoldHashesSnoc(start, prefix, y);
    }
    FoldHashesSeedShift(a, b, suffix);
    WrapIntDifference(r as int * 59 + y as int, r as int * 59 + x as int);
    CongruentScaled(FoldHashes(a, suffix) as int - FoldHashes(b, suffix) as int,
                    a as int - b as int, y as int - x as int, Pow59(|suffix|));
  }

  lemma Pow59Of5()
    ensures Pow59(5) == 714_924_299
  {
    assert Pow59(1) == 59;
    assert Pow59(2) == 3481;
    assert Pow59(3) == 205_379;
    assert Pow59(4) == 12_117_361;
  }

  /** The hash as a fold with dryRun's contribution between the fields before and after it. */
  lemma HashAroundDryRun(f: StartMessageFields, unseen: UnseenHashes)
    ensures StartMessageHash(f, unseen)
            == FoldHashes(unseen.baseHash(f.base), LeadingHashes(f) + [f.dryRun] + TrailingHashes(f, unseen))
  {
  }

  /**
   * With Lombok's field order five fields (environmentCode, executorName,
   * workerGroup, startParams, tenantCode) are folded in after dryRun, so two
   * messages alike but for dryRun have hash codes that differ by the
   * difference of their dryRun values times 59^5, modulo 2^32.
   */
  lemma DryRunShiftsHash(f: StartMessageFields, unseen: UnseenHashes, d: Int)
    ensures (StartMessageHash(f.(dryRun := d), unseen) as int - StartMessageHash(f, unseen) as int
             - (d as int - f.dryRun as int) * 714_924_299) % 0x1_0000_0000 == 0
  {
    var g := f.(dryRun := d);
    HashAroundDryRun(f, unseen);
    HashAroundDryRun(g, unseen);
    assert LeadingHashes(g) == LeadingHashes(f);
    assert TrailingHashes(g, unseen) == TrailingHashes(f, unseen);
    FoldHashesPointShift(unseen.baseHash(f.base), LeadingHashes(f), f.dryRun, d, TrailingHashes(f, unseen));
    Pow59Of5();
  }

  /** Folding zero hashes into a zero result leaves it zero. */
  lemma {:induction false} FoldHashesOfZeros(zs: seq<Int>)
    requires forall i :: 0 <= i < |zs| ==> zs[i] == 0
    ensures FoldHashes(0, zs) == 0
    decreases |zs|
  {
    if zs != [] {
      var rest := zs[1..];
      assert forall i :: 0 <= i < |rest| ==> rest[i] == zs[i + 1];
      FoldHashesOfZeros(rest);
      assert HashStep(0, zs[0]) == WrapInt(0) == 0;
    }
  }

  /** A fresh message whose BaseMessage part hashes to 0 has hash code 530030083. */
  lemma HashCodeOfFreshMessage(m: TaskExecuteStartMessage, unseen: UnseenHashes)
    requires m.Fields() == DefaultFields(BaseMessage(None, None, 0))
    requires unseen.baseHash(BaseMessage(None, None, 0)) == 0
    ensures m.HashCode(unseen) == 530_030_083
  {
    var f := m.Fields();
    assert LongHashCode(0) == 0 by {
      assert LongBits(0) == 0;
      assert LowWord(0) == 0;
    }
    var zeros := LeadingHashes(f) + [f.dryRun];
    var tail := TrailingHashes(f, unseen);
    assert forall i :: 0 <= i < |zeros| ==> zeros[i] == 0;
    assert tail == [43, 43, 43, 43, 43];
    HashAroundDryRun(f, unseen);
    FoldHashesAppend(0, zeros, tail);
    FoldHashesOfZeros(zeros);
    assert HashStep(8983560, 43) == 530030083;
    assert [43][1..] == [];
    assert FoldHashes(8983560, [43]) == 530030083;
    assert HashStep(152263, 43) == 8983560;
    assert [43, 43][1..] == [43];
    assert FoldHashes(152263, [43, 43]) == 530030083;
    assert HashStep(2580, 43) == 152263;
    assert [43, 43, 43][1..] == [43, 43];
    assert FoldHashes(2580, [43, 43, 43]) == 530030083;
    assert HashStep(43, 43) == 2580;
    assert [43, 43, 43, 43][1..] == [43, 43, 43];
    assert FoldHashes(43, [43, 43, 43, 43]) == 530030083;
    assert HashStep(0, 43) == 43;
    assert [43, 43, 43, 43, 43][1..] == [43, 43, 43, 43];
    assert FoldHashes(0, [43, 43, 43, 43, 43]) == 530030083;
  }
}
