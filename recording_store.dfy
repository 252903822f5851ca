/**
 * The recording store of the WPF application (`RecordingService`): one JSON file per
 * recording, named after its id, in a `Recordings` directory. The directory is a map from
 * file id to what the file holds. What `SaveRecording` writes is taken to deserialize to
 * the recording saved; how System.Text.Json treats the abstract `InputAction` elements of
 * `Actions` is not part of this model.
 */
module RecordingStore {
  import opened Wrappers
  import opened Models

  /**
   * What deserializing a file gives: a recording, the JSON literal `null` (the deserializer
   * returns null), or text the deserializer rejects.
   */
  datatype StoredFile = Json(rec: Recording) | NullJson | Malformed

  /** The exceptions `LoadRecording` lets escape. */
  datatype LoadError =
    | NotFound        // FileNotFoundException, "录制文件不存在"
    | ParseFailed     // InvalidOperationException, "录制文件解析失败"
    | JsonRejected    // the deserializer's own exception, not caught

  type Directory = map<Guid, StoredFile>

  /** `LoadRecording(id)` on a given directory. */
  function Load(files: Directory, id: Guid): Result<Recording, LoadError>
  {
    if id !in files then Failure(NotFound)
    else
      match files[id]
      case Json(r) => Success(r)
      case NullJson => Failure(ParseFailed)
      case Malformed => Failure(JsonRejected)
  }

  /** Every file that parses holds the recording its name says: what `SaveRecording` writes. */
  predicate NamedByContent(files: Directory)
  {
    forall k :: k in files && files[k].Json? ==> files[k].rec.id == k
  }

  /** Saving then loading the same id gives back the saved recording. */
  lemma SaveThenLoad(files: Directory, r: Recording)
    ensures Load(files[r.id := Json(r)], r.id) == Success(r)
  {
  }

  /** Saving one recording changes what no other id loads, and keeps files named by content. */
  lemma SaveKeepsOthers(files: Directory, r: Recording, other: Guid)
    requires other != r.id
    ensures Load(files[r.id := Json(r)], other) == Load(files, other)
    ensures NamedByContent(files) ==> NamedByContent(files[r.id := Json(r)])
  {
  }

  /** After a delete the id is not found; every other id loads as before. */
  lemma DeleteThenLoad(files: Directory, id: Guid, other: Guid)
    ensures Load(files - {id}, id) == Failure(NotFound)
    ensures other != id ==> Load(files - {id}, other) == Load(files, other)
    ensures NamedByContent(files) ==> NamedByContent(files - {id})
  {
  }

  /** A load succeeds exactly for the files that parse to a recording. */
  lemma LoadSucceedsIffParses(files: Directory, id: Guid)
    ensures Load(files, id).Success? <==> id in files && files[id].Json?
    ensures Load(files, id).Failure? && Load(files, id).error == NotFound <==> id !in files
  {
  }

  // ---- Listing: `GetAllRecordings` ----

  /** A directory listing: every file of the directory, each once. */
  predicate IsListing(listing: seq<Guid>, files: Directory)
  {
    (forall i, j :: 0 <= i < j < |listing| ==> listing[i] != listing[j]) &&
    (forall k :: k in files ==> k in listing) &&
    (forall k :: k in listing ==> k in files)
  }

  /** The recordings the listed files parse to, in listing order; the others are skipped. */
  function Parsed(files: Directory, listing: seq<Guid>): seq<Recording>
    requires forall k :: k in listing ==> k in files
  {
    if listing == [] then []
    else
      var front := listing[..|listing| - 1];
      var f := files[listing[|listing| - 1]];
      Parsed(files, front) + (if f.Json? then [f.rec] else [])
  }

  /** The parsed recordings are exactly the contents of the listed files that parse. */
  lemma {:induction false} ParsedMembers(files: Directory, listing: seq<Guid>, r: Recording)
    requires forall k :: k in listing ==> k in files
    ensures r in Parsed(files, listing) <==> exists k :: k in listing && files[k] == Json(r)
    decreases |listing|
  {
    if listing != [] {
      var front, last := listing[..|listing| - 1], listing[|listing| - 1];
      assert forall k :: k in front ==> k in listing;
      ParsedMembers(files, front, r);
      if exists k :: k in listing && files[k] == Json(r) {
        var k :| k in listing && files[k] == Json(r);
        if k != last {
          assert k in front;
        }
      }
    }
  }

  /** `a` goes before `b` in a list ordered by `CreatedAt`, latest first. */
  predicate SortedByCreatedDesc(s: seq<Recording>)
  {
    forall i, j :: 0 <= i < j < |s| ==> s[i].createdAt >= s[j].createdAt
  }

  /**
   * Insert `x` into a list ordered latest first, before the first recording not later
   * than it. Elements from the front of the input are inserted last, so each goes before
   * the equal ones that followed it: the sort keeps the input order among equal times.
   */
  function Insert(x: Recording, s: seq<Recording>): (t: seq<Recording>)
    ensures multiset(t) == multiset(s) + multiset{x}
    ensures |t| == |s| + 1
  {
    if s == [] then [x]
    else if s[0].createdAt <= x.createdAt then [x] + s
    else
      assert s == [s[0]] + s[1..];
      [s[0]] + Insert(x, s[1..])
  }

  /** `OrderByDescending(r => r.CreatedAt)`: a stable insertion sort. */
  function SortByCreatedDesc(s: seq<Recording>): (t: seq<Recording>)
    ensures multiset(t) == multiset(s)
  {
    if s == [] then []
    else
      assert s == [s[0]] + s[1..];
      Insert(s[0], SortByCreatedDesc(s[1..]))
  }

  /** Inserting keeps every recording no later than a bound that `x` and `s` respect. */
  lemma {:induction false} InsertBounded(x: Recording, s: seq<Recording>, b: int)
    requires x.createdAt <= b && forall k :: 0 <= k < |s| ==> s[k].createdAt <= b
    ensures forall k :: 0 <= k < |Insert(x, s)| ==> Insert(x, s)[k].createdAt <= b
    decreases |s|
  {
    if s != [] && s[0].createdAt > x.createdAt {
      var u := Insert(x, s[1..]);
      assert forall k :: 0 <= k < |s[1..]| ==> s[1..][k].createdAt <= b by {
        forall k | 0 <= k < |s[1..]| ensures s[1..][k].createdAt <= b {
          assert s[1..][k] == s[k + 1];
        }
      }
      InsertBounded(x, s[1..], b);
      assert Insert(x, s) == [s[0]] + u;
    }
  }

  lemma {:induction false} InsertKeepsOrder(x: Recording, s: seq<Recording>)
    requires SortedByCreatedDesc(s)
    ensures SortedByCreatedDesc(Insert(x, s))
    decreases |s|
  {
    if s != [] && s[0].createdAt > x.createdAt {
      var rest := s[1..];
      assert SortedByCreatedDesc(rest) by {
        forall i, j | 0 <= i < j < |rest| ensures rest[i].createdAt >= rest[j].createdAt {
          assert rest[i] == s[i + 1] && rest[j] == s[j + 1];
        }
      }
      assert forall k :: 0 <= k < |rest| ==> rest[k].createdAt <= s[0].createdAt by {
        forall k | 0 <= k < |rest| ensures rest[k].createdAt <= s[0].createdAt {
          assert rest[k] == s[k + 1];
        }
      }
      InsertKeepsOrder(x, rest);
      InsertBounded(x, rest, s[0].createdAt);
      var u := Insert(x, rest);
      var t := [s[0]] + u;
      assert Insert(x, s) == t;
      forall i, j | 0 <= i < j < |t| ensures t[i].createdAt >= t[j].createdAt {
        assert t[j] == u[j - 1];
        if i > 0 {
          assert t[i] == u[i - 1];
        }
      }
    } else if s != [] {
      var t := [x] + s;
      forall i, j | 0 <= i < j < |t| ensures t[i].createdAt >= t[j].createdAt {
        assert t[j] == s[j - 1];
        if i > 0 {
          assert t[i] == s[i - 1];
        } else {
          assert s[0].createdAt >= s[j - 1].createdAt || j - 1 == 0;
        }
      }
    }
  }

  /** The sorted list is ordered latest first. */
  lemma {:induction false} SortIsOrdered(s: seq<Recording>)
    ensures SortedByCreatedDesc(SortByCreatedDesc(s))
    decreases |s|
  {
    if s != [] {
      SortIsOrdered(s[1..]);
      InsertKeepsOrder(s[0], SortByCreatedDesc(s[1..]));
    }
  }

  /** The recordings of a list created at time `t`, in list order. */
  function CreatedAt(s: seq<Recording>, t: int): (u: seq<Recording>)
    ensures |u| <= |s|
  {
    if s == [] then []
    else (if s[0].createdAt == t then [s[0]] else []) + CreatedAt(s[1..], t)
  }

  /** The recordings among `[y]` that were created at time `t`. */
  function Own(y: Recording, t: int): seq<Recording>
  {
    if y.createdAt == t then [y] else []
  }

  lemma CreatedAtCons(y: Recording, s: seq<Recording>, t: int)
    ensures CreatedAt([y] + s, t) == Own(y, t) + CreatedAt(s, t)
  {
    assert ([y] + s)[0] == y && ([y] + s)[1..] == s;
  }

  lemma CommuteEmpty<T>(a: seq<T>, b: seq<T>, c: seq<T>)
    requires a == [] || b == []
    ensures a + (b + c) == b + (a + c)
  {
  }

  lemma {:induction false} InsertIsStable(x: Recording, s: seq<Recording>, t: int)
    ensures CreatedAt(Insert(x, s), t) == Own(x, t) + CreatedAt(s, t)
    decreases |s|
  {
    if s == [] {
      CreatedAtCons(x, [], t);
      assert [x] + [] == [x];
    } else if s[0].createdAt > x.createdAt {
      var rest := s[1..];
      var u := Insert(x, rest);
      var c := CreatedAt(rest, t);
      assert CreatedAt(u, t) == Own(x, t) + c by {
        InsertIsStable(x, rest, t);
      }
      assert CreatedAt(Insert(x, s), t) == Own(s[0], t) + CreatedAt(u, t) by {
        assert Insert(x, s) == [s[0]] + u;
        CreatedAtCons(s[0], u, t);
      }
      assert CreatedAt(s, t) == Own(s[0], t) + c by {
        assert s == [s[0]] + rest;
        CreatedAtCons(s[0], rest, t);
      }
      CommuteEmpty(Own(s[0], t), Own(x, t), c);
    } else {
      CreatedAtCons(x, s, t);
    }
  }

  /** Sorting keeps the relative order of recordings created at the same time. */
  lemma {:induction false} SortIsStable(s: seq<Recording>, t: int)
    ensures CreatedAt(SortByCreatedDesc(s), t) == CreatedAt(s, t)
    decreases |s|
  {
    if s != [] {
      SortIsStable(s[1..], t);
      InsertIsStable(s[0], SortByCreatedDesc(s[1..]), t);
    }
  }

  /** A newer recording listed after an older one comes out first. */
  lemma LatestFirst()
    ensures var a := Recording(1, "a", 10, []);
            var b := Recording(2, "b", 20, []);
            SortByCreatedDesc([a, b]) == [b, a]
  {
    var a, b := Recording(1, "a", 10, []), Recording(2, "b", 20, []);
    assert [a, b][1..] == [b];
    assert [b][1..] == [];
  }

  // ---- The service ----

  class RecordingService {
    /** The `Recordings` directory: file id to what its file holds. */
    var files: Directory

    /** The constructor creates the directory when missing and otherwise keeps its files. */
    constructor (existing: Directory)
      ensures files == existing
    {
      files := existing;
    }

    /** `SaveRecording`: writes the file `<Id>.json`, replacing any file of that name. */
    method SaveRecording(recording: Recording)
      modifies this
      ensures files == old(files)[recording.id := Json(recording)]
    {
      files := files[recording.id := Json(recording)];
    }

    /** `LoadRecording`: the recording in `<id>.json`, or the error the source throws. */
    method LoadRecording(id: Guid) returns (res: Result<Recording, LoadError>)
      ensures res == Load(files, id)
      ensures res.Success? ==> id in files && files[id] == Json(res.value)
    {
      if id !in files {
        return Failure(NotFound);
      }
      match files[id]
      case Json(r) => res := Success(r);
      case NullJson => res := Failure(ParseFailed);
      case Malformed => res := Failure(JsonRejected);
    }

    /**
     * `GetAllRecordings`: reads every file of the directory in the order the file system
     * lists them, skips those that do not parse, and orders the rest latest first,
     * keeping the listing order among equal times.
     */
    method GetAllRecordings(listing: seq<Guid>) returns (rs: seq<Recording>)
      requires IsListing(listing, files)
      ensures rs == SortByCreatedDesc(Parsed(files, listing))
      ensures SortedByCreatedDesc(rs)
      ensures forall r :: r in rs <==> exists k :: k in files && files[k] == Json(r)
      ensures forall t :: CreatedAt(rs, t) == CreatedAt(Parsed(files, listing), t)
    {
      var recordings: seq<Recording> := [];
      for i := 0 to |listing|
        invariant recordings == Parsed(files, listing[..i])
      {
        assert listing[..i + 1][..i] == listing[..i];
        var file := files[listing[i]];
        if file.Json? {
          recordings := recordings + [file.rec];
        }
      }
      assert listing[..|listing|] == listing;
      rs := SortByCreatedDesc(recordings);
      SortIsOrdered(recordings);
      forall r
        ensures r in rs <==> exists k :: k in files && files[k] == Json(r)
      {
        ParsedMembers(files, listing, r);
        assert r in rs <==> r in multiset(recordings);
      }
      forall t
        ensures CreatedAt(rs, t) == CreatedAt(recordings, t)
      {
        SortIsStable(recordings, t);
      }
    }

    /** `DeleteRecording`: removes `<id>.json` when it exists; nothing else changes. */
    method DeleteRecording(id: Guid)
      modifies this
      ensures files == old(files) - {id}
    {
      if id in files {
        files := files - {id};
      }
    }

    /**
     * `RenameRecording`: loads the recording, sets its name and saves it again, under the
     * id the file holds. A failed load propagates its error and writes nothing.
     */
    method RenameRecording(id: Guid, newName: string) returns (res: Outcome<LoadError>)
      modifies this
      ensures Load(old(files), id).Failure? ==>
                res == Fail(Load(old(files), id).error) && files == old(files)
      ensures Load(old(files), id).Success? ==>
                var r := Load(old(files), id).value;
                res == Pass && files == old(files)[r.id := Json(r.(name := newName))]
    {
      var loaded := LoadRecording(id);
      if loaded.Failure? {
        return Fail(loaded.error);
      }
      var recording := loaded.value.(name := newName);
      SaveRecording(recording);
      res := Pass;
    }
  }

  /**
   * In a directory whose files are named by their contents, a rename changes only the
   * name of that one recording: its id, creation time and actions are kept, and every
   * other id loads as before.
   */
  lemma RenameChangesOnlyName(files: Directory, id: Guid, newName: string, other: Guid)
    requires NamedByContent(files) && Load(files, id).Success?
    ensures var r := Load(files, id).value;
            var files' := files[r.id := Json(r.(name := newName))];
            && r.id == id
            && Load(files', id) == Success(Recording(r.id, newName, r.createdAt, r.actions))
            && (other != id ==> Load(files', other) == Load(files, other))
            && NamedByContent(files')
  {
  }
}
