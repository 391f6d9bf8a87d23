/**
 * The registry and the records the `document` sub-command works on, with the
 * search engine's answers (does the index exist, which ids does it hold, how
 * many documents) recorded as plain fields.
 */
module Domain {
  import opened Wrappers
  import opened Filters

  /** The actions the `document` sub-command accepts (lines 312-316). */
  datatype Action = Index | Update | Delete {
    /** The enum's value, also the key of the action in a bulk error entry. */
    function Value(): string {
      match this
      case Index => "index"
      case Update => "update"
      case Delete => "delete"
    }
  }

  /** A document class: its name, the name of its Django model, and its Python module path. */
  datatype Document = Document(name: string, model: string, modulePath: string)

  /**
   * A registered index: `_name`, `exists()` (as `created`), `_doc_types[0]`,
   * `search().count()` and the ids `search().scan()` returns.
   */
  datatype IndexRec = IndexRec(name: string, created: bool, document: Document, docCount: nat, storedIds: seq<string>)

  /** A document class registered under an index, read through `os_model.Index.name`. */
  datatype DocMapping = DocMapping(document: Document, indexName: string)

  /**
   * The registry: `get_indices()` in iteration order, the `__name__` of each
   * model of `get_models()`, and `get_indices_raw()` as the document classes
   * of each index, in iteration order.
   */
  datatype Registry = Registry(indices: seq<IndexRec>, models: seq<string>, raw: seq<seq<DocMapping>>)

  /**
   * One entry of `kwargs_list`: the objects branch builds
   * `{filter_, exclude, count}` (line 148), the index branch
   * `{db_alias, filter_, exclude, count}` (line 165).
   */
  datatype Kwargs<V> =
    | ObjectKwargs(filter: Option<Q<V>>, exclude: Option<Q<V>>, count: Option<int>)
    | IndexKwargs(dbAlias: Option<string>, filter: Option<Q<V>>, exclude: Option<Q<V>>, count: Option<int>)

  /**
   * A document class paired with its kwargs, as the execution loop zips them
   * (lines 190 and 221); `index` is the index it came from in the index branch.
   */
  datatype Target<V> = Target(document: Document, index: Option<string>, kwargs: Kwargs<V>)

  /** One line `- {count} {Model}.` of the pre-run summary. */
  datatype SummaryLine = SummaryLine(count: nat, model: string)

  /** Why the command stops with exit status 1 before anything is written. */
  datatype Abort =
    | UnknownObject(name: string, choices: seq<string>)
    | UnknownIndices(unknown: set<string>, choices: seq<string>)
    | NotCreated(missing: seq<string>)
    | FieldErrorOn(model: string, index: Option<string>, message: string)

  /** A bulk error entry as the engine reports it: action key to a dict with an optional `result`. */
  type ErrorRec = map<string, map<string, string>>
}
