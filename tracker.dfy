/** DocumentTracker (src/kbol/tracking/document_tracker.py): the
    processing ledger. The two Postgres tables become two maps, keyed as
    the tables' unique columns are: processed_documents by file_path and
    processor_versions by version_hash. */
module Tracker {
  import opened Common

  /** Lines 15-21. processor_version is an opaque fingerprint string. */
  datatype ProcessingConfig = ProcessingConfig(
    chunkSize: int, chunkOverlap: int, embedModel: string, processorVersion: string)

  /** One row of processed_documents, without its file_path key and its
      processed_at timestamp. */
  datatype Entry = Entry(
    fileHash: string, chunkSize: int, chunkOverlap: int, embedModel: string,
    processorVersion: string, chunksCount: int, totalTokens: int,
    status: string, errorMessage: Option<string>, metadata: map<string, string>)

  /** The WHERE clause of lines 90-97 on the row of this path: the five
      non-key fields agree with the hash and the configuration. */
  predicate Matches(e: Entry, fileHash: string, config: ProcessingConfig)
  {
    && e.fileHash == fileHash
    && e.chunkSize == config.chunkSize
    && e.chunkOverlap == config.chunkOverlap
    && e.embedModel == config.embedModel
    && e.processorVersion == config.processorVersion
  }

  /** Lines 77-120: (should_process, error_message). */
  function Decision(documents: map<string, Entry>, path: string, fileHash: string,
                    config: ProcessingConfig, force: bool): (r: (bool, Option<string>))
    ensures force ==> r == (true, None)
    ensures r.1 != None ==> r.0
  {
    if force then (true, None)
    else if path !in documents || !Matches(documents[path], fileHash, config) then (true, None)
    else if documents[path].status == "failed" then (true, documents[path].errorMessage)
    else (false, None)
  }

  /** A document is skipped exactly when it is not forced and its row
      matches on all six fields with a status other than "failed". */
  lemma SkipIff(documents: map<string, Entry>, path: string, fileHash: string,
                config: ProcessingConfig, force: bool)
    ensures !Decision(documents, path, fileHash, config, force).0
      <==> !force && path in documents && Matches(documents[path], fileHash, config)
           && documents[path].status != "failed"
  {
  }

  /** A mismatch in any one of the six fields counts as never processed. */
  lemma MismatchProcesses(documents: map<string, Entry>, path: string, fileHash: string,
                          config: ProcessingConfig)
    requires path !in documents || !Matches(documents[path], fileHash, config)
    ensures Decision(documents, path, fileHash, config, false) == (true, None)
  {
  }

  /** A matching failed row is retried and its stored error handed back. */
  lemma FailedRetries(documents: map<string, Entry>, path: string, fileHash: string,
                      config: ProcessingConfig)
    requires path in documents && Matches(documents[path], fileHash, config)
    requires documents[path].status == "failed"
    ensures Decision(documents, path, fileHash, config, false) == (true, documents[path].errorMessage)
  {
  }

  /** The row lines 163-193 write for a path. */
  function NewEntry(fileHash: string, config: ProcessingConfig, chunksCount: int, totalTokens: int,
                    status: string, errorMessage: Option<string>, metadata: Option<map<string, string>>): (e: Entry)
    ensures Matches(e, fileHash, config)
    ensures e.status == status && e.errorMessage == errorMessage
    ensures e.chunksCount == chunksCount && e.totalTokens == totalTokens
    ensures metadata == None ==> e.metadata == map[]
  {
    Entry(fileHash, config.chunkSize, config.chunkOverlap, config.embedModel, config.processorVersion,
          chunksCount, totalTokens, status, errorMessage,
          if metadata == None then map[] else metadata.value)
  }

  /** Lines 151-158: ON CONFLICT (version_hash) DO NOTHING. */
  function RegisterVersion(versions: map<string, ProcessingConfig>, config: ProcessingConfig): (r: map<string, ProcessingConfig>)
    ensures config.processorVersion in r
    ensures r.Keys == versions.Keys + {config.processorVersion}
    ensures forall v :: v in versions ==> r[v] == versions[v]
    ensures config.processorVersion !in versions ==> r[config.processorVersion] == config
  {
    if config.processorVersion in versions then versions
    else versions[config.processorVersion := config]
  }

  /** Registering a version again, with any configuration, changes nothing:
      the first snapshot stays. */
  lemma RegisterVersionIdempotent(versions: map<string, ProcessingConfig>, config: ProcessingConfig, again: ProcessingConfig)
    requires again.processorVersion == config.processorVersion
    ensures RegisterVersion(RegisterVersion(versions, config), again) == RegisterVersion(versions, config)
  {
  }

  /** Recording a result and then asking about the same file with the same
      configuration: a "failed" record is retried with its error, any
      other status is skipped. */
  lemma RecordThenDecide(documents: map<string, Entry>, path: string, fileHash: string,
                         config: ProcessingConfig, chunksCount: int, totalTokens: int,
                         status: string, errorMessage: Option<string>, metadata: Option<map<string, string>>)
    ensures var after := documents[path := NewEntry(fileHash, config, chunksCount, totalTokens, status, errorMessage, metadata)];
      Decision(after, path, fileHash, config, false)
      == if status == "failed" then (true, errorMessage) else (false, None)
  {
  }

  /** Recording a result for one path changes no decision about another. */
  lemma RecordKeepsOthers(documents: map<string, Entry>, path: string, e: Entry, other: string,
                          fileHash: string, config: ProcessingConfig, force: bool)
    requires other != path
    ensures Decision(documents[path := e], other, fileHash, config, force)
         == Decision(documents, other, fileHash, config, force)
  {
  }

  /** After reset_tracking every document is processed again. */
  lemma ResetProcessesAll(path: string, fileHash: string, config: ProcessingConfig, force: bool)
    ensures Decision(map[], path, fileHash, config, force) == (true, None)
  {
  }

  class DocumentTracker {
    /** processed_documents, keyed by file_path. */
    var documents: map<string, Entry>
    /** processor_versions: version_hash to the config_json snapshot. */
    var versions: map<string, ProcessingConfig>
    /** compute_file_hash (lines 56-62): SHA-256 of the file's bytes, as
        an opaque function. */
    const fileHash: seq<Byte> -> string

    /** Lines 44-47: the tracker opens a database whose tables may already
        hold rows. */
    constructor (documents: map<string, Entry>, versions: map<string, ProcessingConfig>, fileHash: seq<Byte> -> string)
      ensures this.documents == documents && this.versions == versions
      ensures this.fileHash == fileHash
    {
      this.documents := documents;
      this.versions := versions;
      this.fileHash := fileHash;
    }

    /** Lines 64-120; `contents` are the bytes of the file at `path`. */
    method ShouldProcess(path: string, contents: seq<Byte>, config: ProcessingConfig, force: bool)
      returns (process: bool, error: Option<string>)
      ensures (process, error) == Decision(documents, path, fileHash(contents), config, force)
    {
      if force {
        return true, None;
      }
      var hash := fileHash(contents);
      if path !in documents || !Matches(documents[path], hash, config) {
        return true, None;
      }
      var row := documents[path];
      if row.status == "failed" {
        return true, row.errorMessage;
      }
      return false, None;
    }

    /** Lines 122-199: the version is registered if new, and the path's
        row is inserted or overwritten; no other row changes. */
    method RecordProcessing(path: string, contents: seq<Byte>, config: ProcessingConfig,
                            chunksCount: int, totalTokens: int, status: string,
                            errorMessage: Option<string>, metadata: Option<map<string, string>>)
      modifies this
      ensures versions == RegisterVersion(old(versions), config)
      ensures documents == old(documents)[path := NewEntry(fileHash(contents), config, chunksCount, totalTokens,
                                                           status, errorMessage, metadata)]
    {
      var hash := fileHash(contents);
      versions := RegisterVersion(versions, config);
      documents := documents[path := NewEntry(hash, config, chunksCount, totalTokens, status, errorMessage, metadata)];
    }

    /** Lines 201-212: every row of processed_documents is deleted; the
        version history stays. */
    method ResetTracking()
      modifies this
      ensures documents == map[] && versions == old(versions)
    {
      documents := map[];
    }

    /** Lines 214-223: both tables are emptied. */
    method ClearAll()
      modifies this
      ensures documents == map[] && versions == map[]
    {
      documents := map[];
      versions := map[];
    }
  }
}
