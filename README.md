# QPush queue providers in Dafny

This project models two message-queue providers of the QPush bundle.

**FileProvider** keeps a queue in a directory, one JSON file per message.
- `publish` writes the encoded payload to `path/shard/id.json`. The id is the `microtime()` stamp with its spaces removed. The shard is the first three characters of the id's md5.
- `receive` lists the `*.json` files inside the visibility window. That window is bounded by `message_delay` and `message_expiration`, which `convertSecondToHuman` turns into "… ago" phrases.
- `receive` claims each listed file whose id is not yet in the process's `$filePointerList` and whose exclusive lock it can take. It stops once `messages_to_receive` messages are claimed.
- `delete` releases a claimed id and removes its file. One time in ten it then sweeps the directory.
- `destroy` removes the whole directory.

**PreconfiguredAwsProvider** works against an SNS topic and an SQS queue that already exist.
- `publish` goes to the topic whenever `topic_arn` is configured. Otherwise it goes to the queue when `queue_url` is configured, and otherwise it throws.
- `receive` turns SQS records into messages. An SNS notification found in a record's body is unwrapped.
- `delete` acknowledges a message by its receipt handle.

Modules, one per file:
- `Messages` (messages.dfy): the decoded JSON value, the `Message` handed to consumers, and `Option`/`Result`.
- `HumanTime` (human_time.dfy): `convertSecondToHuman` as a datatype of the four phrase shapes, and the cutoff instant a phrase denotes.
- `FileLayout` (file_layout.dfy):
  - the file layout of the queue directory;
  - the Finder filters of `receive` and `cleanUp` over a disk, modelled as a map from relative paths to files;
  - the id and path round trips.
- `FileClaims` (file_claims.dfy): receive's claim-or-skip scan as a pure function `Claims`, with its order, freshness, cap and maximality lemmas.
- `FileQueue` (file_provider.dfy): the `FileProvider` class. Its fields are the directory, the lock table `$filePointerList` (id to handle), the set of open file pointers and the next handle serial.
  - `Receive` is an imperative scan proved against `Claims`.
  - `Delete` changes the disk and the lock table in place. `CleanUp` and `Publish` change only the disk and whether the directory exists.
- `AwsRequests` (aws_requests.dfy):
  - the request maps sent to SNS and SQS;
  - the conversion of SQS records into messages;
  - the end-to-end round trips through the queue and through the topic.
- `AwsQueue` (aws_provider.dfy): the `PreconfiguredAwsProvider` class. Its SNS and SQS clients are an append-only log of calls. What a client answers, such as a MessageId or the list of records, is an input.

`receive` (src/Provider/FileProvider.php:73-77) keeps only files modified after now minus `message_expiration`, so a file older than that is treated as gone. The sweep `cleanUp` runs one time in ten after a delete, and it uses that same `'> N ago'` filter (:150-152). It therefore unlinks the files `receive` can still deliver, and it never removes the expired ones. `FileQueue.FileProvider.CleanUp` models the code as written. The finding below records the discrepancy, and the rest of the model uses the corrected sweep.

## Model

| member | source | states |
|---|---|---|
| HumanTime.ConvertSecondToHuman | src/Provider/FileProvider.php:96-116 | The components recombine to the input: days·86400 + hours·3600 + minutes·60 + seconds = seconds. The phrase shape is chosen by the thresholds 60, 3600 and 86400, each as an if-and-only-if. For a non-negative input every component is below its unit's limit. The leading component is non-zero except in the seconds-only shape, where it may be 0. |
| HumanTime.Cutoff | src/Provider/FileProvider.php:68-77 | The instant the printed phrase denotes is exactly now minus the option's seconds. |
| FileLayout.StripSpaces | src/Provider/FileProvider.php:39-40 | The id has no space left and keeps every other character of the stamp with its multiplicity. |
| FileLayout.StripSpacesChar | src/Provider/FileProvider.php:40 | One character is dropped if it is a space and kept otherwise. |
| FileLayout.StripSpacesConcat | src/Provider/FileProvider.php:40 | Stripping a concatenation strips each part and joins them, so the remaining characters keep their order. With StripSpacesChar this fixes the result of `str_replace(' ', '', …)` on every stamp. |
| FileLayout.StripSpacesKeepsSpaceFree | src/Provider/FileProvider.php:40 | A stamp with no space is returned unchanged. |
| FileLayout.ShardOf | src/Provider/FileProvider.php:41 | The shard directory is a prefix of md5(id) of length min(3, length of the hash). |
| FileLayout.IdOf | src/Provider/FileProvider.php:82 | The id is the file name with its last five characters cut off: a prefix five characters shorter. A name shorter than five characters gives the empty id. |
| FileLayout.StoredPath | src/Provider/FileProvider.php:41-47 | The message lives one directory below the root, in the shard of its id, under the name `id.json`, which matches `*.json`. delete (:123-126) builds the same path. |
| FileLayout.IdOfStoredName | src/Provider/FileProvider.php:47 | Cutting the last five characters off `id.json` gives back the id. |
| FileLayout.StoredPathRoundTrip | src/Provider/FileProvider.php:41-50 | The id that receive reads off the file publish wrote leads delete to that same path `shard/id.json`. |
| FileLayout.ReceiveCandidates | src/Provider/FileProvider.php:59-77 | Every file receive iterates exists, was enumerated, passes the query and carries the id read off its name. The query is `*.json`, no dot or VCS component, mtime before now−delay when delay > 0, and mtime after now−expiration. |
| FileLayout.ReceiveCandidatesComplete | src/Provider/FileProvider.php:59-80 | Every enumerated file that passes the query is iterated. |
| FileLayout.ReceiveCandidatesAppend | src/Provider/FileProvider.php:80 | Listing keeps enumeration order: a split walk lists its parts' candidates in sequence. |
| FileLayout.PublishedFileIsCandidate | src/Provider/FileProvider.php:37-85 | A published file is offered to receive under exactly the id publish returned, once the delay has passed and before it expires. |
| FileLayout.Select | src/Provider/FileProvider.php:138-156 | A file is selected if and only if it was enumerated, exists and passes the filter. |
| FileLayout.SweptByCleanUp | src/Provider/FileProvider.php:140-152 | cleanUp's query: a listed `*.json` file at depth below 2 that passes `'> N ago'`. Every such file is unexpired by receive's test. |
| FileLayout.CleanUpVictims | src/Provider/FileProvider.php:140-156 | A path is unlinked by cleanUp if and only if it was enumerated, exists and matches cleanUp's query. |
| FileLayout.ExpiredVictims | src/Provider/FileProvider.php:140-156 | Corrected sweep: a path is unlinked if and only if it was enumerated, exists and is a shallow listed file past its expiration. |
| FileLayout.CleanUpSweepsUnexpired | src/Provider/FileProvider.php:138-157 | As written, among the shallow `*.json` files cleanUp unlinks exactly those that receive still treats as unexpired. |
| FileLayout.CleanUpRemovesLiveMessage | src/Provider/FileProvider.php:150-152 | Concrete case with a 60-second expiration: cleanUp takes the deliverable message written 10 s ago and keeps the expired one written 100 s ago. |
| FileLayout.ExpiredSweepComplementsReceive | src/Provider/FileProvider.php:150-152 | The corrected sweep removes a shallow listed file if and only if it has expired, and never a file receive could deliver. |
| FileClaims.Claims | src/Provider/FileProvider.php:80-92 | The indices of the claimed candidates all lie in the scanned range. |
| FileClaims.ClaimsStep | src/Provider/FileProvider.php:83-91 | One file of the scan. A claimable file is claimed and its id taken; otherwise the file is skipped. Either way the scan stops when the count equals messages_to_receive. |
| FileClaims.ClaimsAdvance | src/Provider/FileProvider.php:80-91 | The indices claimed so far, followed by the rest of the scan, equal the indices claimed after handling one more file, followed by the scan from the next file. The latter part is empty once that file filled the batch. |
| FileClaims.ClaimedIdsSnoc | src/Provider/FileProvider.php:84 | Claiming one more candidate adds exactly its id to the claimed ids. |
| FileClaims.ClaimsIncreasing | src/Provider/FileProvider.php:80-85 | Claimed messages come back in enumeration order. |
| FileClaims.ClaimsFresh | src/Provider/FileProvider.php:83-84 | Every claimed id was absent from the table and its file unlocked by other processes, and no id is claimed twice in a scan. |
| FileClaims.ClaimsCapped | src/Provider/FileProvider.php:89-91 | With messages_to_receive ≥ 1, no more than that many messages are returned. |
| FileClaims.ClaimsStopAtCap | src/Provider/FileProvider.php:89-91 | Once the batch is full the scan stops: files enumerated later do not change the result. |
| FileClaims.ClaimsMaximal | src/Provider/FileProvider.php:80-92 | Unless the batch filled, every file left unclaimed was blocked. Blocked means its id was in the table or claimed earlier in the scan, or another process held its lock. |
| FileClaims.ZeroBatchIsUncapped | src/Provider/FileProvider.php:89 | With messages_to_receive = 0, once a message is claimed the count never equals the cap again, so the scan runs as if uncapped. |
| FileClaims.ZeroBatchStopsAtBlockedFirst | src/Provider/FileProvider.php:89-91 | With messages_to_receive = 0, a blocked first file ends the scan with nothing. |
| FileClaims.TwoReceivesDrainThree | src/Provider/FileProvider.php:80-92 | Three messages with a batch of 2: the first receive claims two, and a second receive in the same process claims the third. |
| FileQueue.ScanClaims | src/Provider/FileProvider.php:83-85 | Claiming a claimable file with a handle not open before keeps the scan's invariant. The delivered messages gain that file's message, the table gains its id with the handle, and the rest of the scan starts at the next file. |
| FileQueue.ClaimedIntoStep | src/Provider/FileProvider.php:84 | Recording a new handle for a fresh id extends the claim relation by that candidate. |
| FileQueue.DeliveredStep | src/Provider/FileProvider.php:85 | Appending a claimed file's message extends the delivered sequence by that candidate. |
| FileQueue.ValuesAfterInsert | src/Provider/FileProvider.php:84 | Inserting a handle under a fresh id adds exactly that handle to the open set. |
| FileQueue.ValuesAfterRemove | src/Provider/FileProvider.php:128-129 | Unsetting an id closes exactly its own handle. |
| FileQueue.FileProvider.constructor | src/Provider/FileProvider.php:14-21 | A new provider holds no file pointers. |
| FileQueue.FileProvider.Create | src/Provider/FileProvider.php:28-35 | As written, the directory exists afterwards. The result is true when it already existed, and null (None) when create had to make it. |
| FileQueue.FileProvider.CreateReportingSuccess | src/Provider/FileProvider.php:28-35 | Corrected create: the directory exists afterwards and the result is true on both paths. |
| FileQueue.FileProvider.Publish | src/Provider/FileProvider.php:37-51 | Returns the stamp without spaces. Exactly one file changes: `shard/id.json` holds the encoded payload with the current mtime. |
| FileQueue.FileProvider.TryClaim | src/Provider/FileProvider.php:81-88 | Opens one handle. It stays open and is recorded under the id if and only if the id was not in the table and no other process held the lock; otherwise it is closed again. |
| FileQueue.FileProvider.Release | src/Provider/FileProvider.php:128-129 | Closes the id's handle and drops exactly its entry. |
| FileQueue.FileProvider.ScanStep | src/Provider/FileProvider.php:80-91 | One loop iteration keeps the relation between the scan so far, `Claims`, the table and the delivered messages. |
| FileQueue.FileProvider.Scan | src/Provider/FileProvider.php:78-93 | Returns the messages of exactly the candidates `Claims` picks, in order. Each is (id, decoded contents, empty metadata). The new table is the old one plus one fresh handle per returned id, old entries unchanged. Every other handle opened is closed. |
| FileQueue.FileProvider.Receive | src/Provider/FileProvider.php:57-94 | A missing queue directory throws. Otherwise the result is the scan over the files in the receive window, in enumeration order. |
| FileQueue.FileProvider.UnlinkAll | src/Provider/FileProvider.php:154-156 | Removes exactly the listed paths. A path already gone is skipped. |
| FileQueue.FileProvider.CleanUp | src/Provider/FileProvider.php:138-157 | As written: a missing directory throws; otherwise it removes exactly the shallow unexpired `*.json` files. The lock table is unchanged. |
| FileQueue.FileProvider.CleanUpExpired | src/Provider/FileProvider.php:138-157 | Corrected sweep: removes exactly the shallow expired `*.json` files. The lock table is unchanged. |
| FileQueue.FileProvider.Delete | src/Provider/FileProvider.php:118-136 | Returns true if and only if the id was in the table. The id's file and entry are gone afterwards, and its handle is closed. Other entries and files are unchanged, except for the sweep, whose exception replaces the result. |
| FileQueue.FileProvider.OnMessageReceived | src/Provider/FileProvider.php:177-182 | Deletes by the message's id and returns nothing. Afterwards the id's entry and file are gone and its handle is closed. When the sweep runs, the corrected sweep removes the expired shallow files too. It throws only when the sweep runs over a missing directory. |
| FileQueue.FileProvider.Destroy | src/Provider/FileProvider.php:159-164 | The directory and all files are gone, and the result is true. |
| FileQueue.DeleteTwice | src/Provider/FileProvider.php:118-136 | Deleting a held id returns true, and an immediate second delete returns false. |
| AwsRequests.TopicEnvelope | src/Provider/PreconfiguredAwsProvider.php:107-112 | The envelope has exactly the keys default/sqs/http/https. Every protocol but sqs gets the prefixed name. |
| AwsRequests.TopicRequest | src/Provider/PreconfiguredAwsProvider.php:114-121 | The SNS Publish arguments are exactly TopicArn, Subject = name, Message = the encoded envelope, and MessageStructure = "json". |
| AwsRequests.QueueRequest | src/Provider/PreconfiguredAwsProvider.php:156-160 | The SendMessage arguments are exactly QueueUrl, MessageBody = encoded payload, and DelaySeconds = merged message_delay (null when unset). |
| AwsRequests.ReceiveRequest | src/Provider/PreconfiguredAwsProvider.php:206-211 | The ReceiveMessage arguments are exactly QueueUrl, MaxNumberOfMessages = merged messages_to_receive, and WaitTimeSeconds = merged receive_wait_time. |
| AwsRequests.DeleteRequest | src/Provider/PreconfiguredAwsProvider.php:247-252 | The DeleteMessage arguments are exactly QueueUrl and ReceiptHandle = the id passed to delete. |
| AwsRequests.IsEnvelope | src/Provider/PreconfiguredAwsProvider.php:225-226 | `is_array($body) && isset($body['Message'])`: the decoded body is an array whose Message entry, read with null for a missing key, is not null. |
| AwsRequests.DecodeInner | src/Provider/PreconfiguredAwsProvider.php:228 | `json_decode` of the inner Message: a string or number is decoded as its text, and an array or null gives null. |
| AwsRequests.DecodeBody | src/Provider/PreconfiguredAwsProvider.php:224-229 | A body that is not an SNS notification is handed on as decoded. A notification whose Message is a string is replaced by that string, decoded. |
| AwsRequests.ConvertRecord | src/Provider/PreconfiguredAwsProvider.php:218-231 | The message has id = MessageId, the decoded and unwrapped body, and metadata with exactly the keys ReceiptHandle and MD5OfBody, taken from the record. |
| AwsRequests.TopicRequestCarriesMessage | src/Provider/PreconfiguredAwsProvider.php:107-121 | The SNS request has exactly TopicArn = options.topic_arn, Subject = name, Message and MessageStructure = "json". Decoding Message and then its sqs entry gives back the published payload. |
| AwsRequests.RecordsOf | src/Provider/PreconfiguredAwsProvider.php:214 | A missing Messages field gives no records; otherwise the records are taken as they are. |
| AwsRequests.ConvertAll | src/Provider/PreconfiguredAwsProvider.php:217-235 | One message per record, in order. Each has id = MessageId and the decoded (SNS-unwrapped) body. Its metadata is exactly {ReceiptHandle, MD5OfBody}. |
| AwsRequests.QueueRoundTrip | src/Provider/PreconfiguredAwsProvider.php:156-160 | A payload sent with publishToQueue is received back unchanged when it has no non-null "Message" entry. Otherwise the decoded entry is handed on instead. |
| AwsRequests.QueuePayloadNamedMessageIsUnwrapped | src/Provider/PreconfiguredAwsProvider.php:224-229 | A concrete payload `{"Message": "hello"}` sent straight to the queue is not received back intact. |
| AwsRequests.TopicRoundTrip | src/Provider/PreconfiguredAwsProvider.php:103-121 | A notification that SNS delivers to the queue, carrying the sqs entry of the envelope, is unwrapped back to the published payload. |
| AwsQueue.ReceiptOf | src/Provider/PreconfiguredAwsProvider.php:275-278 | The receipt handle read from a message's metadata is null exactly when the metadata has no ReceiptHandle. Otherwise it is that string. |
| AwsQueue.AcknowledgeUsesReceipt | src/Provider/PreconfiguredAwsProvider.php:273-283 | Acknowledging a received message deletes it by the receipt handle of its own SQS record. |
| AwsQueue.PreconfiguredAwsProvider.constructor | src/Provider/PreconfiguredAwsProvider.php:48-56 | A new provider has made no client calls. |
| AwsQueue.PreconfiguredAwsProvider.Create | src/Provider/PreconfiguredAwsProvider.php:66-69 | Returns true and makes no client call. |
| AwsQueue.PreconfiguredAwsProvider.Destroy | src/Provider/PreconfiguredAwsProvider.php:74-77 | Returns true and makes no client call. |
| AwsQueue.PreconfiguredAwsProvider.OnNotification | src/Provider/PreconfiguredAwsProvider.php:298-300 | Always throws RuntimeException and makes no client call. |
| AwsQueue.PreconfiguredAwsProvider.PublishToTopic | src/Provider/PreconfiguredAwsProvider.php:103-132 | Exactly one SNS Publish call, with the topic request. Returns the answer's MessageId. |
| AwsQueue.PreconfiguredAwsProvider.PublishToQueue | src/Provider/PreconfiguredAwsProvider.php:140-196 | Exactly one SQS SendMessage call with QueueUrl, MessageBody = encoded payload and DelaySeconds = merged message_delay. Returns the answer's MessageId. |
| AwsQueue.PreconfiguredAwsProvider.Publish | src/Provider/PreconfiguredAwsProvider.php:87-96 | SNS whenever topic_arn is set, even with queue_url. SQS only when queue_url alone is set. With neither, it throws LogicException and calls no client. Exactly one call otherwise. |
| AwsQueue.PreconfiguredAwsProvider.Receive | src/Provider/PreconfiguredAwsProvider.php:202-238 | Exactly one ReceiveMessage call with QueueUrl, MaxNumberOfMessages = merged messages_to_receive and WaitTimeSeconds = merged receive_wait_time. Returns one converted message per record. |
| AwsQueue.PreconfiguredAwsProvider.Delete | src/Provider/PreconfiguredAwsProvider.php:245-261 | Exactly one DeleteMessage call with QueueUrl and ReceiptHandle = id. Always returns true. |
| AwsQueue.PreconfiguredAwsProvider.OnMessageReceived | src/Provider/PreconfiguredAwsProvider.php:273-283 | Deletes by the ReceiptHandle in the message's metadata, or by null when there is none. |
| AwsQueue.ReceiveThenAcknowledge | src/Provider/PreconfiguredAwsProvider.php:202-283 | Receiving a record and acknowledging the resulting message makes one receive call, then one delete call on the same queue with that record's receipt handle. |

## Left out

- Filesystem effects are an abstract map from paths below the queue root to (contents, mtime). This covers Finder enumeration, `mkdir`, the atomicity of `dumpFile`, `fopen`/`flock`/`fclose`, `unlink` and recursive remove. Enumeration order is an input sequence, the current time is a parameter, and files locked by other processes are an input set of paths.
- Failures of these operations are not modelled: fopen returning false, IOException from Filesystem, unreadable directories (`ignoreUnreadableDirs`) and symbolic links.
- md5, `json_encode` and `json_decode` are uninterpreted function parameters. The round-trip lemmas assume `json_decode` undoes `json_encode` on the documents involved.
- `microtime()` is an input stamp. Uniqueness of ids across publishes is not modelled.
- `strtotime` parsing of the "… ago" phrase is not modelled. The phrase is represented by its components rather than as rendered text, and the cutoff is taken to be now minus the phrase's total seconds, ignoring calendar and daylight-saving effects of "days".
- The `rand(1,10) === 5` draw in delete is a boolean input.
- Concurrency between processes is not modelled. In particular, cleanUp can race with a consumer holding the file.
- FileQueue.FileProvider.Delete: its sweep runs the corrected `CleanUpExpired`, not cleanUp as written. The as-written behaviour is `FileQueue.FileProvider.CleanUp`.
- FileQueue.FileProvider.OnMessageReceived: it goes through Delete, so its sweep is the corrected one too. As written, the source's delete would run cleanUp and unlink the unexpired shallow files instead.
- The onMessageReceived `stopPropagation()` calls are left out. The event dispatcher is not modelled and the call only sets a flag on the event.
- Logging, Cache, Logger and the `publish_time` measurement are not modelled.
- `mergeOptions` and `getNameWithPrefix` live in AbstractProvider, which is not part of this model. Their results are inputs: `merged` and `prefixedName`.
- The SNS and SQS SDK clients and their Result objects are not modelled. Calls are logged, and the MessageId and the Messages list a call answers are inputs.
- `getProvider()` names ("File", "AWSP") are not modelled.
- The commented-out FIFO code of publishToQueue and everything after the `throw` in onNotification are dead code and not modelled. So is the `fifo` option, which is read only for the log context.
- Decoded JSON arrays are maps from string keys. The key order of a PHP array and the distinction between a list and an object are not kept. Nothing in the model depends on them, because `json_encode` and `json_decode` are uninterpreted.
- AwsRequests.ConvertAll: the by-reference `foreach` that overwrites each record in place is modelled as building a new sequence, because each element changes type from record to Message.
- AwsRequests.DecodeInner: a non-string inner Message is coerced the way PHP 7 does (array gives null, true gives "1", false gives ""). The TypeError PHP 8 would raise is not modelled.

## Findings

| source | as written | input that shows it | evidently intended | confidence | as-written member | corrected member |
|---|---|---|---|---|---|---|
| src/Provider/FileProvider.php:150-152 | cleanUp filters with `date('> N ago')`, which keeps files modified after now−expiration. It therefore unlinks the messages that are still deliverable. | expiration 60 s, now 1000, a file with mtime 990 (receivable) and one with mtime 900 (expired): cleanUp unlinks the first and keeps the second | the sweep removes the expired files, which receive no longer returns | high, not executed | FileLayout.CleanUpRemovesLiveMessage | FileLayout.ExpiredSweepComplementsReceive |
| src/Provider/FileProvider.php:31-32 | create() returns the result of Symfony `Filesystem::mkdir`, which returns nothing, so create yields null when it makes the directory | a queue directory that does not exist yet | create returns true once the directory exists | medium, not executed | FileQueue.FileProvider.Create | FileQueue.FileProvider.CreateReportingSuccess |
