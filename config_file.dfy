/** The configuration-file repair done at start-up: `ensure_file_exists` creates a
    missing file from the defaults, and `ensure_json_valid` keeps exactly the
    default keys, preferring the file's values, and backs the original up before
    rewriting it. The file system is a value passed in and returned. */
module ConfigFile {
  import opened Strings

  /** What a configuration file holds, as the JSON reader sees it. */
  datatype Stored<V> =
    | Missing                       // no file at that path
    | Undecodable                   // the text is not JSON
    | NotAnObject                   // JSON, but not an object (a list, a number, ...)
    | Object(data: map<string, V>)  // a JSON object

  /** The configuration file after the repair, and the backup written beside it, if any. */
  datatype Repair<V> = Repair(file: Stored<V>, backup: Option<map<string, V>>)

  /** The cleaned object: every default key, with the file's value where the file has one. */
  function Cleaned<V>(defaults: map<string, V>, data: map<string, V>): (r: map<string, V>)
    ensures r.Keys == defaults.Keys
    ensures forall k :: k in r ==> r[k] == if k in data then data[k] else defaults[k]
  {
    map k | k in defaults :: if k in data then data[k] else defaults[k]
  }

  /** The file needs rewriting: a default key is missing or an extra key is present. */
  predicate Modified<V>(defaults: map<string, V>, data: map<string, V>) {
    (exists k :: k in defaults && k !in data) || (exists k :: k in data && k !in defaults)
  }

  /** The cleaning loop of `ensure_json_valid`: goes over the default keys one at a
      time, copying the file's value or falling back to the default (and then
      noting the change), and finally notes any key the defaults do not have. */
  method CleanKeys<V>(defaults: map<string, V>, data: map<string, V>)
    returns (cleaned: map<string, V>, modified: bool)
    ensures cleaned.Keys == defaults.Keys
    ensures forall k :: k in cleaned ==> cleaned[k] == if k in data then data[k] else defaults[k]
    ensures modified <==> (exists k :: k in defaults && k !in data) || (exists k :: k in data && k !in defaults)
  {
    cleaned := map[];
    modified := false;
    var todo := defaults.Keys;
    while todo != {}
      invariant todo <= defaults.Keys
      invariant cleaned.Keys == defaults.Keys - todo
      invariant forall k :: k in cleaned ==> cleaned[k] == if k in data then data[k] else defaults[k]
      invariant modified <==> exists k :: k in defaults && k !in todo && k !in data
      decreases todo
    {
      var key :| key in todo;
      if key in data {
        cleaned := cleaned[key := data[key]];
      } else {
        cleaned := cleaned[key := defaults[key]];
        modified := true;
      }
      todo := todo - {key};
    }
    var extraKeys := data.Keys - defaults.Keys;
    if extraKeys != {} {
      assert exists k :: k in extraKeys;
      modified := true;
    } else {
      assert forall k :: k in data ==> k in defaults by {
        forall k | k in data ensures k in defaults {
          assert k !in extraKeys;
        }
      }
    }
  }

  /** `ensure_file_exists`: writes the defaults only where there is no file. */
  function EnsureFileExists<V>(file: Stored<V>, defaults: map<string, V>): (r: Stored<V>)
    ensures file.Missing? ==> r == Object(defaults)
    ensures !file.Missing? ==> r == file
  {
    if file.Missing? then Object(defaults) else file
  }

  /** `ensure_json_valid`. A missing file and JSON that is not an object raise inside
      the guarded block, so nothing is written; undecodable JSON is replaced by the
      defaults without a backup; an object is rewritten only when it needs it, after
      a backup of the original. */
  function EnsureJsonValid<V>(file: Stored<V>, defaults: map<string, V>): (r: Repair<V>)
    ensures file.Undecodable? ==> r == Repair(Object(defaults), None)
    ensures file.Missing? || file.NotAnObject? ==> r == Repair(file, None)
    ensures file.Object? && !Modified(defaults, file.data) ==> r == Repair(file, None)
    ensures file.Object? && Modified(defaults, file.data) ==>
      && r.backup == Some(file.data) && r.file.Object? && r.file.data.Keys == defaults.Keys
      && forall k :: k in r.file.data ==> r.file.data[k] == if k in file.data then file.data[k] else defaults[k]
  {
    match file
    case Missing => Repair(file, None)
    case Undecodable => Repair(Object(defaults), None)
    case NotAnObject => Repair(file, None)
    case Object(data) =>
      if Modified(defaults, data) then Repair(Object(Cleaned(defaults, data)), Some(data))
      else Repair(file, None)
  }

  /** After the repair the file is an object with exactly the default keys, unless it
      was missing or held some other JSON value; a file that already had exactly the
      default keys keeps all its values. */
  lemma RepairedFileHasDefaultKeys<V>(file: Stored<V>, defaults: map<string, V>)
    requires !file.Missing? && !file.NotAnObject?
    ensures EnsureJsonValid(file, defaults).file.Object?
    ensures EnsureJsonValid(file, defaults).file.data.Keys == defaults.Keys
  {
    if file.Object? && !Modified(defaults, file.data) {
      assert forall k :: k in file.data <==> k in defaults;
    }
  }

  /** Repairing twice is the same as repairing once, and the second pass writes no backup. */
  lemma RepairIdempotent<V>(file: Stored<V>, defaults: map<string, V>)
    ensures var once := EnsureJsonValid(file, defaults).file;
            EnsureJsonValid(once, defaults) == Repair(once, None)
  {
    var once := EnsureJsonValid(file, defaults).file;
    if once.Object? {
      var d := once.data;
      if file.Object? && Modified(defaults, file.data) {
        assert d.Keys == defaults.Keys;
      } else if file.Object? {
        assert forall k :: k in file.data <==> k in defaults;
      }
      assert forall k :: k in d <==> k in defaults;
      assert !Modified(defaults, d);
    }
  }

  /** On a fresh install the file is created from the defaults and then left alone. */
  lemma FreshInstall<V>(defaults: map<string, V>)
    ensures EnsureJsonValid(EnsureFileExists(Missing, defaults), defaults) == Repair(Object(defaults), None)
  {
    assert !Modified(defaults, defaults);
  }
}
