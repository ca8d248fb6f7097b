# RGW sync-info and class-log types, modelled in Dafny

This project models two small pieces of the Ceph object gateway's replication layer.

The first is the sync-info layer (`src/rgw/rgw_sync_info.h`). A *provider* serves a log split into stages, and each stage is split into shards. A *provider client* consumes one provider and tracks progress shard by shard. The *SIP manager* is a directory of providers, keyed by id. The model covers:

- the stage vocabulary: `StageType`, `StageInfo`, `Entry` and `fetch_result` with their defaults;
- the single-stage provider, whose topology answers are fixed when it is constructed;
- the provider client's state and its two queries, `is_shard_done` and `stage_complete`;
- the manager's register, find and list operations.

The second is the class-log record and header (`src/cls/log/cls_log_types.h`), with their versioned encodings. `cls_log_entry` is written at version 2 with compat 1. A decoder reads the trailing `id` only from a version-2 frame, so older payloads still decode. `cls_log_header` is written at version 1 and compares field by field.

Modules:

- `ByteString` (byte_string.dfy): the byte-sequence type shared by the other modules.
- `SyncInfo` (sync_info.dfy): the stage vocabulary and the single-stage provider. Return codes stay C-style: 0, or `-ERANGE` (ERANGE = 34, as on Linux). A C++ output pointer becomes "the caller's value in, the final value out", so a contract can say the output is left alone.
- `SyncClient` (sync_client.dfy): the provider client's state as an immutable record, its queries, and a well-formedness predicate. The predicate says there is one marker and one done flag per shard, and that `num_complete` counts the done flags that are set.
- `StringOrder` (string_order.dfy): the ordering `std::map` uses for `std::string` keys, proved to be a total order.
- `SipManager` (sip_manager.dfy): the provider directory as a `map<string, ProviderRef>`. A provider handle is `Null` or an opaque identity.
- `ClsLogTypes` (cls_log_types.dfy): the log entry and header, with encoders and decoders. An encoding is modelled as a frame: a version tag, a compat tag and a sequence of fields. A field is either a length-prefixed byte chunk (a string or a buffer list) or a timestamp. A decoder refuses a frame whose compat is above its own version. It reads fields in order, and it skips any fields left unread at the end of the frame. Errors come back as a `Result`.

Behaviour of the code worth noting:

- `stage_complete` is true for a stage with zero shards, since it compares 0 with 0.
- An unknown stage id in `get_stage_info` gives `-ERANGE`.
- `list_sip` returns ids in ascending key order, because `std::map` iterates in key order.
- Registering a `Null` handle is allowed, and `find_sip` then answers `Null` for that id.

## Model

| member | source | states |
|---|---|---|
| SyncInfo.StageTypeCode | src/rgw/rgw_sync_info.h:19-23 | UNKNOWN is -1, FULL is 0 and INC is 1. Only UNKNOWN is negative. |
| SyncInfo.DefaultFetchResultIsEmpty | src/rgw/rgw_sync_info.h:38-42 | A default fetch_result has no entries, and both more and done are false. |
| SyncInfo.NewSingleStage | src/rgw/rgw_sync_info.h:67-77 | The constructor stores exactly {name, type, num_shards} as the one stage. get_first_stage and get_last_stage both return that name. |
| SyncInfo.FirstStage | src/rgw/rgw_sync_info.h:72-74 | get_first_stage returns a stage id whose get_stage_info lookup succeeds with the stored stage info. |
| SyncInfo.LastStage | src/rgw/rgw_sync_info.h:75-77 | get_last_stage returns the same id as get_first_stage, and get_next_stage from it gives -ERANGE. |
| SyncInfo.Stages | src/rgw/rgw_sync_info.h:82-84 | get_stages returns one id, which is both the first and the last stage. |
| SyncInfo.NextStage | src/rgw/rgw_sync_info.h:79-81 | get_next_stage returns -ERANGE for every input and never writes the caller's next-stage output. |
| SyncInfo.GetStageInfo | src/rgw/rgw_sync_info.h:86-93 | Returns 0 exactly when the id is the provider's stage id, and then writes the stage info. Otherwise it returns -ERANGE and leaves the output as the caller had it. |
| SyncInfo.SingleStageTopology | src/rgw/rgw_sync_info.h:72-93 | The stage list is the one-element list [sid]. The provider meets the general topology contract: the list runs from the first stage to the last, get_next_stage fails past the last stage, and get_stage_info answers for exactly the listed ids. |
| SyncClient.NewClient | src/rgw/rgw_sync_info.h:147 | The constructor binds the provider and leaves every other member at its default: no markers, no done flags, no initial markers, and the default stage info. The result is well formed and already stage-complete. |
| SyncClient.GetStageInfo | src/rgw/rgw_sync_info.h:153-155 | get_stage_info returns the client's whole stage_info record. Its shard count is stage_num_shards, and on a well-formed client that equals the number of done flags. |
| SyncClient.StageNumShards | src/rgw/rgw_sync_info.h:157-159 | On a well-formed client, stage_num_shards is non-negative and equals both the number of markers and the number of done flags. |
| SyncClient.IsShardDone | src/rgw/rgw_sync_info.h:161-164 | A shard at or beyond num_shards is never done, and nothing is indexed then, even for a negative id. Below num_shards, the answer is the shard's done flag, so such an id must be a valid index into the done flags. |
| SyncClient.StageComplete | src/rgw/rgw_sync_info.h:166-168 | On a well-formed client, stage_complete holds exactly when every done flag is set. |
| SyncClient.StageCompleteIffAllShardsDone | src/rgw/rgw_sync_info.h:166-168 | On a well-formed client, stage_complete (num_complete == num_shards) holds exactly when every shard below num_shards reports done. A stage with no shards is complete. |
| SyncClient.FreshClient | src/rgw/rgw_sync_info.h:139-168 | A new client keeps its provider and reports the default stage info: empty id, UNKNOWN type, 0 shards. No shard is done, yet the client is already stage-complete, because 0 == 0. |
| SipManager.EmptyManager | src/rgw/rgw_sync_info.h:179 | A newly constructed manager has no registered ids, so find_sip answers Null for every id. |
| SipManager.RegisterSip | src/rgw/rgw_sync_info.h:181-183 | Registration adds the id to the key set and binds it to the new handle, overwriting any earlier one. Every other binding is unchanged. |
| SipManager.FindSip | src/rgw/rgw_sync_info.h:185-191 | A registered id gives the handle bound to it, which may itself be Null. An absent id gives Null, so a non-null answer comes only from a registered id. |
| SipManager.FindAfterRegister | src/rgw/rgw_sync_info.h:181-191 | After register_sip(id, p), find_sip(id) returns p, and find_sip of any other id is what it was before. |
| SipManager.FindAfterHistory | src/rgw/rgw_sync_info.h:181-191 | After any series of registrations, find_sip returns the handle of the latest registration of that id (last writer wins). An id never registered gives Null. The registered ids are exactly those in the series. |
| SipManager.ListSip | src/rgw/rgw_sync_info.h:193-200 | list_sip returns every registered id exactly once, in strictly ascending std::string order. Its length is the number of distinct ids. |
| SipManager.SortedListingUnique | src/rgw/rgw_sync_info.h:193-200 | The key set alone fixes the listing: two strictly sorted lists with the same elements are equal. |
| ClsLogTypes.NewEntry | src/cls/log/cls_log_types.h:29-32 | The utime_t constructor stores the given section, name, timestamp and data, and leaves the id empty. |
| ClsLogTypes.NewEntryFromRealTime | src/cls/log/cls_log_types.h:24-27 | The real_time constructor stores the converted timestamp and the given fields, and leaves the id empty. It equals the utime_t constructor applied to the converted time. |
| ClsLogTypes.ReadChunk | src/cls/log/cls_log_types.h:46-49 | Reading a string or buffer list returns the bytes of the chunk at the read position and moves one field on. It fails with UnexpectedField on a stamp, and with EndOfFrame past the end of the frame. |
| ClsLogTypes.ReadStamp | src/cls/log/cls_log_types.h:48 | Reading a timestamp returns the stamp at the read position and moves one field on. It fails with UnexpectedField on a chunk, and with EndOfFrame past the end of the frame. |
| ClsLogTypes.EncodeEntry | src/cls/log/cls_log_types.h:34-42 | The entry is written as a version-2, compat-1 frame, and decoding that frame gives the entry back. |
| ClsLogTypes.DecodeEntryInto | src/cls/log/cls_log_types.h:44-53 | Decoding succeeds exactly on a frame with compat at most 2 that holds a chunk, a chunk, a stamp and a chunk, plus an id chunk when its version is 2 or more. Section, name, timestamp and data come from those fields. The id comes from the fifth field at version 2 or more, and is the target's own id otherwise. A frame with compat above 2 fails with TooOld. |
| ClsLogTypes.DecodeEntry | src/cls/log/cls_log_types.h:22 | Decoding into a default-constructed entry succeeds on the same frames as DecodeEntryInto, and a frame with compat above 2 fails with TooOld. Section, name, timestamp and data come from the first four fields. The id comes from the fifth field at version 2 or more, and is empty otherwise. |
| ClsLogTypes.DecodeStart | src/cls/log/cls_log_types.h:45 | A decoder of version v accepts a frame exactly when the frame's compat is at most v, and then starts at its first field. Otherwise it fails with TooOld. |
| ClsLogTypes.EntryRoundTrip | src/cls/log/cls_log_types.h:34-53 | Decoding the encoding of an entry gives back the same section, name, timestamp, data and id, whatever the target entry held before. |
| ClsLogTypes.EncodedEntryLayout | src/cls/log/cls_log_types.h:35-41 | The entry is written at version 2. It can be read by any decoder of version 1 or later. Its fields are section, name, timestamp, data, then id, so the first four alone form a version-1 payload. |
| ClsLogTypes.V1PayloadKeepsId | src/cls/log/cls_log_types.h:44-53 | A version-1 payload is decoded from its four fields, and the target's id is kept. Decoded into a default-constructed entry, the id is therefore empty. |
| ClsLogTypes.NewerEntryFrameSkipsTrailing | src/cls/log/cls_log_types.h:44-53 | A frame of version 2 or later with compat at most 2 decodes to the entry in its first five fields. Any fields after the id are skipped. |
| ClsLogTypes.EntryDecodeErrors | src/cls/log/cls_log_types.h:44-53 | Decoding fails in three cases: a version-2 frame that lacks the id, a frame with compat above 2, and a frame with fewer than four fields. |
| ClsLogTypes.EncodeHeader | src/cls/log/cls_log_types.h:61-66 | The header is written as a version-1, compat-1 frame with exactly two fields, a chunk then a stamp. Decoding that frame gives the header back, so those fields are max_marker and max_time. |
| ClsLogTypes.DecodeHeader | src/cls/log/cls_log_types.h:68-73 | Decoding succeeds exactly on a frame with compat at most 1 whose first two fields are a chunk and a stamp. max_marker and max_time are taken from them. |
| ClsLogTypes.HeaderEq | src/cls/log/cls_log_types.h:75-78 | operator== holds exactly when the two headers are equal as values. |
| ClsLogTypes.HeaderNe | src/cls/log/cls_log_types.h:79-81 | operator!= holds exactly when the two headers differ. |
| ClsLogTypes.HeaderEquality | src/cls/log/cls_log_types.h:75-81 | Header == holds exactly when both max_marker and max_time are equal, which is structural equality. It is reflexive and symmetric, and != is exactly its negation. |
| ClsLogTypes.HeaderRoundTrip | src/cls/log/cls_log_types.h:61-78 | Decoding the encoding of a header succeeds and gives a header == to the original. A frame with compat above 1 is refused. |

## Left out

- Bodies of `SIProviderClient::init_markers`, `fetch`, `promote_stage` and `init_stage`: they are defined outside the header, so the client's state transitions (marker seeding, cursor advance, exactly-once completion counting, promotion) are not modelled. The `WellFormed` predicate states the per-stage invariant those operations are designed to keep, but no operation in this model establishes it other than the constructor.
- The single-stage provider's `fetch`, `get_start_marker` and `get_cur_state`, and the `do_fetch` family: their bodies are defined outside the header.
- `load_state` / `save_state`: these are external persistence (I/O).
- Thread safety of the manager and the client is not modelled (concurrency).
- `CephContext`, `shared_ptr` lifetime and reference counting are not modelled. A provider handle is only an identity, or `Null`.
- The byte layout written by the `ENCODE_START` / `DECODE_START` / `DECODE_FINISH` macros, string and buffer-list length prefixes, and the 8-bit width of the version tags are abstracted. A frame carries a version tag, a compat tag and a field sequence. Because strings and buffer lists share one field kind, a chunk read where a stamp belongs (or the reverse) fails with `UnexpectedField`. Real bytes could be misread instead.
- `utime_t` is a pair of naturals compared as a pair. `real_time` is opaque, and its conversion to `utime_t` is a parameter of the constructor.
- Strings in the class-log codec are byte sequences. Stage ids, markers and provider ids are Dafny strings. The `std::map` key order is lexicographic on character codes.
- A decode that fails part-way through leaves the C++ target entry partly overwritten. Here a failed decode returns an error and no entry.
- `ERANGE` is fixed at its Linux value, 34.
- SyncClient.IsShardDone: the C++ indexes `done` whenever the id is below `num_shards`, with no lower-bound check, so a negative id below `num_shards` is undefined behaviour there. The model requires such an id to be a valid index, and leaves every id at or above `num_shards` unrestricted.
