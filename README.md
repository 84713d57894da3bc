# DolphinScheduler RPC message envelope, task-start message and instance query conversion

This project models three small classes of Apache DolphinScheduler in Dafny and proves properties of the model.

- **Message** (`dolphinscheduler-remote`) is the RPC envelope that master and workers exchange.
  - A process-wide counter, seeded at 1, gives every message built with `Message()` the next request id (`opaque`). `Message(long)` takes the id it is given.
  - The header constants are `MAGIC = (byte) 0xbabe`, which is 0xBE (signed -66), and `VERSION = 0`.
  - `equals` looks at the id alone. `hashCode` is `31 + (int) (opaque ^ (opaque >>> 32))` in 32-bit arithmetic.
  - `toString` reports `bodyLen`.
- **TaskExecuteStartMessage** is the typed message that carries a task dispatch.
  - Lombok generates its setters, its no-argument constructor and its field-wise `equals`/`hashCode`, which include the BaseMessage part.
  - Its command type is always `TASK_EXECUTE_START`.
- **WorkflowInstanceQueryRequest.convert2WorkflowInstance** builds a fresh `WorkflowInstance`. It copies the workflow name and the host into it, each only when non-null.

Java's fixed-width arithmetic is written out in module `JavaPrimitives`:
- `Long`, `Int` and `Byte` are newtypes, and `WrapLong`, `WrapInt` and `NarrowToByte` model wrap-around and narrowing casts.
- `LongBits`/`IntBits` give the two's-complement bits, which the hash functions work on.
- `LongHashCode` and `StringHashCode` model the JDK's `Long.hashCode` and `String.hashCode`.

Java `null` is `None` of an `Option`. The exceptions are the two object references of `Message`: `body` stays a nullable `array?<Byte>` and `context` a nullable `MessageContext?`, so that `setBody` and `setContext` keep reference semantics.

A message's identity is its id alone: `equals` compares `opaque` and nothing else (`Message.java:104-117`). The counter is an `AtomicLong`, which wraps from `Long.MAX_VALUE` to `Long.MIN_VALUE`, so ids are distinct for 2^64 constructions and increase strictly up to `Long.MAX_VALUE` (`IssuedIdsDistinct`, `IssuedIdsIncrease`, `IssuedIdsWrapAfterMax`).

The generated `hashCode` of `TaskExecuteStartMessage` starts from `super.hashCode()` and folds in the fields as `result * 59 + hash`. Lombok emits the fields ranked: the primitives first (executorId, projectCode, taskDefinitionCode, taskDefinitionVersion, warningGroupId, dryRun), then the boxed environmentCode, then executorName, workerGroup, startParams and tenantCode, each group in declaration order.

## Model

| member | source | states |
|---|---|---|
| JavaPrimitives.WrapLong | dolphinscheduler-remote/src/main/java/org/apache/dolphinscheduler/remote/command/Message.java:37 | the long that 64-bit wrap-around gives is congruent to the exact value mod 2^64 and equals it when it is in range |
| JavaPrimitives.WrapInt | dolphinscheduler-remote/src/main/java/org/apache/dolphinscheduler/remote/command/Message.java:100 | the int of 32-bit wrap-around (and of a long-to-int cast) is congruent mod 2^32 and exact in range |
| JavaPrimitives.NarrowToByte | dolphinscheduler-remote/src/main/java/org/apache/dolphinscheduler/remote/command/Message.java:33 | `(byte) x` is the byte congruent to x mod 256, exact in range |
| JavaPrimitives.WrapLongInjective | dolphinscheduler-remote/src/main/java/org/apache/dolphinscheduler/remote/command/Message.java:36-38 | wrap-around to a long is injective on any 2^64 consecutive values |
| JavaPrimitives.LowWordOfFold | dolphinscheduler-remote/src/main/java/org/apache/dolphinscheduler/remote/command/Message.java:100 | the int cast of `b ^ (b >>> 32)` is the xor of b's low and high 32-bit halves |
| JavaPrimitives.LongHashCode | dolphinscheduler-remote/src/main/java/org/apache/dolphinscheduler/remote/command/Message.java:100 | `(int) (v ^ (v >>> 32))` has as bits the xor of the long's two halves |
| JavaPrimitives.StringHashCodeIsPolynomial | dolphinscheduler-remote/src/main/java/org/apache/dolphinscheduler/remote/command/task/TaskExecuteStartMessage.java:36 | String.hashCode, wrapped at every step, agrees mod 2^32 with the exact polynomial `s[0]*31^(n-1) + ... + s[n-1]` |
| RemoteMessage.MagicIsLowByteOfBabe | dolphinscheduler-remote/src/main/java/org/apache/dolphinscheduler/remote/command/Message.java:33-34 | MAGIC is -66, i.e. 0xBE, the low byte of 0xbabe; VERSION is 0 |
| RemoteMessage.RequestIdCounter.constructor | dolphinscheduler-remote/src/main/java/org/apache/dolphinscheduler/remote/command/Message.java:31 | the counter starts at 1 with no id handed out |
| RemoteMessage.RequestIdCounter.GetAndIncrement | dolphinscheduler-remote/src/main/java/org/apache/dolphinscheduler/remote/command/Message.java:37 | returns the current value, advances it by exactly one (wrapping), logs the id and keeps the counter invariant |
| RemoteMessage.FirstIssuedIdIsOne | dolphinscheduler-remote/src/main/java/org/apache/dolphinscheduler/remote/command/Message.java:31-38 | the first id a fresh process hands out is 1 |
| RemoteMessage.IssuedIdsDistinct | dolphinscheduler-remote/src/main/java/org/apache/dolphinscheduler/remote/command/Message.java:36-38 | up to 2^64 successive ids are pairwise distinct |
| RemoteMessage.IssuedIdsIncrease | dolphinscheduler-remote/src/main/java/org/apache/dolphinscheduler/remote/command/Message.java:36-38 | until Long.MAX_VALUE the k-th id is k + 1 and ids strictly increase |
| RemoteMessage.IssuedIdsWrapAfterMax | dolphinscheduler-remote/src/main/java/org/apache/dolphinscheduler/remote/command/Message.java:31-38 | the id after Long.MAX_VALUE is Long.MIN_VALUE |
| RemoteMessage.CounterMessagesDistinct | dolphinscheduler-remote/src/main/java/org/apache/dolphinscheduler/remote/command/Message.java:36-38 | the ids a valid counter has logged are pairwise distinct (fewer than 2^64 of them) |
| RemoteMessage.Message.constructor | dolphinscheduler-remote/src/main/java/org/apache/dolphinscheduler/remote/command/Message.java:36-38 | `Message()` takes the counter's current value as id and advances the counter by one; type and body are null, context is a fresh object, and bodyLen is 0 |
| RemoteMessage.Message.WithOpaque | dolphinscheduler-remote/src/main/java/org/apache/dolphinscheduler/remote/command/Message.java:40-42 | `Message(long)` stores exactly the given id and touches no counter; bodyLen is 0 |
| RemoteMessage.FirstMessagesInFreshProcess | dolphinscheduler-remote/src/main/java/org/apache/dolphinscheduler/remote/command/Message.java:31-38 | in a fresh process the first two `Message()` get ids 1 and 2 and are not equal |
| RemoteMessage.Message.SetType | dolphinscheduler-remote/src/main/java/org/apache/dolphinscheduler/remote/command/Message.java:68-70 | sets the type, every other field and bodyLen unchanged |
| RemoteMessage.Message.SetOpaque | dolphinscheduler-remote/src/main/java/org/apache/dolphinscheduler/remote/command/Message.java:76-78 | sets the id, every other field and bodyLen unchanged |
| RemoteMessage.Message.SetBody | dolphinscheduler-remote/src/main/java/org/apache/dolphinscheduler/remote/command/Message.java:84-86 | sets the body reference, every other field unchanged; bodyLen becomes the new body's length, or 0 for null |
| RemoteMessage.Message.SetContext | dolphinscheduler-remote/src/main/java/org/apache/dolphinscheduler/remote/command/Message.java:92-94 | sets the context, every other field and bodyLen unchanged |
| RemoteMessage.MessageHashCode | dolphinscheduler-remote/src/main/java/org/apache/dolphinscheduler/remote/command/Message.java:96-102 | the hash's bits are 31 plus the xor of the id's halves in 32-bit arithmetic, i.e. 31 + Long.hashCode(id) |
| RemoteMessage.Message.Equals | dolphinscheduler-remote/src/main/java/org/apache/dolphinscheduler/remote/command/Message.java:104-117 | true exactly when the argument is a Message with the same id; false for null and for other classes |
| RemoteMessage.EqualsReflexive | dolphinscheduler-remote/src/main/java/org/apache/dolphinscheduler/remote/command/Message.java:104-117 | every message equals itself |
| RemoteMessage.EqualsSymmetric | dolphinscheduler-remote/src/main/java/org/apache/dolphinscheduler/remote/command/Message.java:104-117 | equals is symmetric |
| RemoteMessage.EqualsTransitive | dolphinscheduler-remote/src/main/java/org/apache/dolphinscheduler/remote/command/Message.java:104-117 | equals is transitive |
| RemoteMessage.EqualsIgnoresPayload | dolphinscheduler-remote/src/main/java/org/apache/dolphinscheduler/remote/command/Message.java:115-116 | messages with the same id are equal whatever their type, context and body |
| RemoteMessage.EqualMessagesHaveEqualHashCodes | dolphinscheduler-remote/src/main/java/org/apache/dolphinscheduler/remote/command/Message.java:96-117 | equal messages have equal hash codes |
| RemoteMessage.HashCodeOfFirstId | dolphinscheduler-remote/src/main/java/org/apache/dolphinscheduler/remote/command/Message.java:96-102 | id 1 hashes to 32 |
| RemoteMessage.HashCodeCollision | dolphinscheduler-remote/src/main/java/org/apache/dolphinscheduler/remote/command/Message.java:96-117 | ids 0 and 2^32 + 1 are unequal yet both hash to 31 |
| RemoteMessage.Message.BodyLen | dolphinscheduler-remote/src/main/java/org/apache/dolphinscheduler/remote/command/Message.java:121 | bodyLen is the body's length when there is one, and 0 exactly when the body is null or empty |
| RemoteMessage.BodyLenHidesNullBody | dolphinscheduler-remote/src/main/java/org/apache/dolphinscheduler/remote/command/Message.java:119-122 | a message without a body and one with an empty body report the same bodyLen, 0 |
| TaskExecuteStart.TaskExecuteStartMessage.constructor | dolphinscheduler-remote/src/main/java/org/apache/dolphinscheduler/remote/command/task/TaskExecuteStartMessage.java:34-59 | the no-argument constructor leaves primitives at 0 and references (including the boxed environmentCode) at null |
| TaskExecuteStart.TaskExecuteStartMessage.WithAddresses | dolphinscheduler-remote/src/main/java/org/apache/dolphinscheduler/remote/command/task/TaskExecuteStartMessage.java:61-63 | sender address, receiver address and send time reach the BaseMessage part unchanged; every declared field is at its default |
| TaskExecuteStart.TaskExecuteStartMessage.SetExecutorId | dolphinscheduler-remote/src/main/java/org/apache/dolphinscheduler/remote/command/task/TaskExecuteStartMessage.java:39 | the new field snapshot is the old one with executorId replaced |
| TaskExecuteStart.TaskExecuteStartMessage.SetExecutorName | dolphinscheduler-remote/src/main/java/org/apache/dolphinscheduler/remote/command/task/TaskExecuteStartMessage.java:41 | the new field snapshot is the old one with executorName replaced |
| TaskExecuteStart.TaskExecuteStartMessage.SetProjectCode | dolphinscheduler-remote/src/main/java/org/apache/dolphinscheduler/remote/command/task/TaskExecuteStartMessage.java:43 | the new field snapshot is the old one with projectCode replaced |
| TaskExecuteStart.TaskExecuteStartMessage.SetTaskDefinitionCode | dolphinscheduler-remote/src/main/java/org/apache/dolphinscheduler/remote/command/task/TaskExecuteStartMessage.java:45 | the new field snapshot is the old one with taskDefinitionCode replaced |
| TaskExecuteStart.TaskExecuteStartMessage.SetTaskDefinitionVersion | dolphinscheduler-remote/src/main/java/org/apache/dolphinscheduler/remote/command/task/TaskExecuteStartMessage.java:47 | the new field snapshot is the old one with taskDefinitionVersion replaced |
| TaskExecuteStart.TaskExecuteStartMessage.SetWarningGroupId | dolphinscheduler-remote/src/main/java/org/apache/dolphinscheduler/remote/command/task/TaskExecuteStartMessage.java:49 | the new field snapshot is the old one with warningGroupId replaced |
| TaskExecuteStart.TaskExecuteStartMessage.SetWorkerGroup | dolphinscheduler-remote/src/main/java/org/apache/dolphinscheduler/remote/command/task/TaskExecuteStartMessage.java:51 | the new field snapshot is the old one with workerGroup replaced |
| TaskExecuteStart.TaskExecuteStartMessage.SetEnvironmentCode | dolphinscheduler-remote/src/main/java/org/apache/dolphinscheduler/remote/command/task/TaskExecuteStartMessage.java:53 | the new field snapshot is the old one with environmentCode (possibly null) replaced |
| TaskExecuteStart.TaskExecuteStartMessage.SetStartParams | dolphinscheduler-remote/src/main/java/org/apache/dolphinscheduler/remote/command/task/TaskExecuteStartMessage.java:55 | the new field snapshot is the old one with startParams replaced |
| TaskExecuteStart.TaskExecuteStartMessage.SetTenantCode | dolphinscheduler-remote/src/main/java/org/apache/dolphinscheduler/remote/command/task/TaskExecuteStartMessage.java:57 | the new field snapshot is the old one with tenantCode replaced |
| TaskExecuteStart.TaskExecuteStartMessage.SetDryRun | dolphinscheduler-remote/src/main/java/org/apache/dolphinscheduler/remote/command/task/TaskExecuteStartMessage.java:59 | the new field snapshot is the old one with dryRun replaced |
| TaskExecuteStart.TaskExecuteStartMessage.Equals | dolphinscheduler-remote/src/main/java/org/apache/dolphinscheduler/remote/command/task/TaskExecuteStartMessage.java:36-59 | true exactly when the argument is a TaskExecuteStartMessage whose BaseMessage part and eleven declared fields all match |
| TaskExecuteStart.CommandTypeIsTaskExecuteStart | dolphinscheduler-remote/src/main/java/org/apache/dolphinscheduler/remote/command/task/TaskExecuteStartMessage.java:65-68 | the command type is TASK_EXECUTE_START whatever the fields hold |
| TaskExecuteStart.EqualsRejectsOtherClasses | dolphinscheduler-remote/src/main/java/org/apache/dolphinscheduler/remote/command/task/TaskExecuteStartMessage.java:36 | equals is false for null and for every other class |
| TaskExecuteStart.EqualsReflexive | dolphinscheduler-remote/src/main/java/org/apache/dolphinscheduler/remote/command/task/TaskExecuteStartMessage.java:36 | every message equals itself |
| TaskExecuteStart.EqualsSymmetric | dolphinscheduler-remote/src/main/java/org/apache/dolphinscheduler/remote/command/task/TaskExecuteStartMessage.java:36 | equals is symmetric |
| TaskExecuteStart.EqualsTransitive | dolphinscheduler-remote/src/main/java/org/apache/dolphinscheduler/remote/command/task/TaskExecuteStartMessage.java:36 | equals is transitive |
| TaskExecuteStart.EqualsComparesBaseMessage | dolphinscheduler-remote/src/main/java/org/apache/dolphinscheduler/remote/command/task/TaskExecuteStartMessage.java:36 | with callSuper, messages whose BaseMessage parts differ are not equal |
| TaskExecuteStart.EqualMessagesHaveEqualHashCodes | dolphinscheduler-remote/src/main/java/org/apache/dolphinscheduler/remote/command/task/TaskExecuteStartMessage.java:36 | equal messages have equal hash codes for any hash codes of the unseen parts |
| TaskExecuteStart.FoldHashesSeedShift | dolphinscheduler-remote/src/main/java/org/apache/dolphinscheduler/remote/command/task/TaskExecuteStartMessage.java:36 | a difference in the running result grows by a factor 59 with every field folded in after it, mod 2^32 |
| TaskExecuteStart.FoldHashesPointShift | dolphinscheduler-remote/src/main/java/org/apache/dolphinscheduler/remote/command/task/TaskExecuteStartMessage.java:36 | changing one field's hash changes the final hash by that change times 59^k, k the number of fields folded in after it, mod 2^32 |
| TaskExecuteStart.DryRunShiftsHash | dolphinscheduler-remote/src/main/java/org/apache/dolphinscheduler/remote/command/task/TaskExecuteStartMessage.java:36-59 | changing only dryRun changes the hash by the change in dryRun times 59^5, mod 2^32, since the five non-primitive fields follow it |
| TaskExecuteStart.HashCodeOfFreshMessage | dolphinscheduler-remote/src/main/java/org/apache/dolphinscheduler/remote/command/task/TaskExecuteStartMessage.java:34-59 | a fresh message whose BaseMessage part hashes to 0 hashes to 530030083 |
| WorkflowInstanceQuery.WorkflowInstance.constructor | dolphinscheduler-api/src/main/java/org/apache/dolphinscheduler/api/dto/workflowInstance/WorkflowInstanceQueryRequest.java:56 | a fresh entity has null name and host and no setter has run |
| WorkflowInstanceQuery.WorkflowInstance.SetName | dolphinscheduler-api/src/main/java/org/apache/dolphinscheduler/api/dto/workflowInstance/WorkflowInstanceQueryRequest.java:58 | sets the name only |
| WorkflowInstanceQuery.WorkflowInstance.SetHost | dolphinscheduler-api/src/main/java/org/apache/dolphinscheduler/api/dto/workflowInstance/WorkflowInstanceQueryRequest.java:61 | sets the host only |
| WorkflowInstanceQuery.WorkflowInstanceQueryRequest.constructor | dolphinscheduler-api/src/main/java/org/apache/dolphinscheduler/api/dto/workflowInstance/WorkflowInstanceQueryRequest.java:37-53 | a request holds the six given field values |
| WorkflowInstanceQuery.WorkflowInstanceQueryRequest.Convert2WorkflowInstance | dolphinscheduler-api/src/main/java/org/apache/dolphinscheduler/api/dto/workflowInstance/WorkflowInstanceQueryRequest.java:55-64 | returns a fresh entity; the name setter runs exactly when workflowName is non-null and the host setter exactly when host is non-null (the entity is reduced to these two setters, so no other can run), and the copied values are the request's; the request is not modified |
| WorkflowInstanceQuery.ConversionIgnoresOtherFields | dolphinscheduler-api/src/main/java/org/apache/dolphinscheduler/api/dto/workflowInstance/WorkflowInstanceQueryRequest.java:55-64 | requests that agree on workflowName and host convert to distinct entities with the same name and host, whatever projectName, startTime, endTime and state hold |

## Left out

- The atomicity of `AtomicLong` is left out. The static counter is a sequential `RequestIdCounter` object, and `Message()` receives it as an argument.
- Getters (`getType`, `getOpaque`, `getBody`, `getContext` and Lombok's getters) are left out as members. Each one returns its field, so the model reads fields directly.
- `Message.HashCode` has no contract of its own. It returns `MessageHashCode` of the message's id, and that function holds the contract.
- `toString` is modelled only for its `bodyLen` value (`BodyLen`). The string formatting is left out.
- `serialVersionUID`, Java serialization and the netty transport are left out. No encoder or decoder exists in these classes.
- The contents of `MessageContext` are not part of this model: it is an empty class, so aliasing and freshness are still visible.
- `MessageType` is not part of this model beyond `TASK_EXECUTE_START`. Every other tag is `OtherMessageType`.
- BaseMessage is not part of this model beyond its three forwarded fields, so several of its behaviours are assumed:
  - its `equals` is assumed to compare those fields;
  - its no-argument constructor is assumed to leave them null, null and 0;
  - its own setters are left out.
- `TaskExecuteStart.TaskExecuteStartMessage.HashCode` has no contract of its own. It returns `StartMessageHash` of the field snapshot, which follows the Lombok 1.18 generator (not among these files); the lemmas about `StartMessageHash` hold the properties. It takes `super.hashCode()` and `Map.hashCode` of `startParams` as parameters (`UnseenHashes`), because neither is defined in these files.
- `TaskExecuteStart.TaskExecuteStartMessage.GetCommandType` has no contract of its own. It returns the constant `TASK_EXECUTE_START` (`TaskExecuteStartMessage.java:65-68`), and `CommandTypeIsTaskExecuteStart` states that for every message.
- Lombok's generated code is not among these files. The hashCode follows what Lombok generates for `@EqualsAndHashCode(callSuper = true)`: `result` starts at `super.hashCode()`, each field enters as `result * 59 + hash`, null contributes 43, a `long` contributes `Long.hashCode`, and the fields are ranked primitives first, then primitive wrappers, then the rest. Lombok's `canEqual` is folded into the class test, which is exact because the model has no subclasses.
- `StringHashCode` hashes Dafny characters, which are Unicode code points. Java hashes UTF-16 code units, so the two differ for characters outside the Basic Multilingual Plane.
- `startParams` is held by value as a `map<string, string>`. Sharing the Java map object between messages, and null keys or values inside it, are not modelled.
- `WorkflowInstance` is not part of this model beyond `name` and `host`. The ghost set `written` records which setters ran, and stands in for "no other field is set".
- `WorkflowInstance.constructor`: the entity class is not part of this model, so its no-argument constructor is assumed to leave `name` and `host` null.
- The request's `PageQueryDto` fields, its Lombok getters and setters and its Jackson/Swagger annotations are left out. Requests are built with a constructor that takes the six declared fields.
- `SchedulerService` and `DefaultWorkerTaskExecutorFactory` are left out. The first is an interface without bodies, and the second only copies references into classes that are not part of this model.
