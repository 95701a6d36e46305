/** The post path registry of core/launchers.py ("masquerade" mode): the
    first time a post is met it gets a human-readable directory, which is
    stored and reused on every later encounter; and the registry of
    per-file locks that serialises access to the registry's database. */
module Registry {
  import opened Common

  type Path = string

  /** One registry row: the creator and the stored directory of a post id. */
  datatype Entry = Entry(creator: string, path: Path)

  /** `get_posts_by_path(path)` is non-empty. */
  predicate PathTaken(rows: map<string, Entry>, p: Path) {
    exists id :: id in rows && rows[id].path == p
  }

  /** No two post ids share a directory. */
  ghost predicate PathsUnique(rows: map<string, Entry>) {
    forall a, b :: a in rows && b in rows && rows[a].path == rows[b].path ==> a == b
  }

  /** The sanitised title `safeTitle`, or the post id when the title is
      empty. The emptiness test is on the raw title: a title that sanitises
      to nothing yields an empty name. */
  function HumanName(id: string, title: string, safeTitle: string): string {
    if |title| > 0 then safeTitle else id
  }

  /** The directory a post resolves to against the rows `rows`. */
  function MasqueradePath(rows: map<string, Entry>, postsPath: Path, id: string, title: string,
                          safeTitle: string): Path
  {
    if id in rows then rows[id].path
    else
      var human := HumanName(id, title, safeTitle);
      var p := JoinPath(postsPath, human);
      if PathTaken(rows, p) then JoinPath(postsPath, human + "_" + id) else p
  }

  /** The rows after resolving a post: unchanged for a known id, one new
      row otherwise. */
  function MasqueradeRows(rows: map<string, Entry>, creator: string, postsPath: Path, id: string, title: string,
                          safeTitle: string): map<string, Entry>
  {
    if id in rows then rows
    else rows[id := Entry(creator, MasqueradePath(rows, postsPath, id, title, safeTitle))]
  }

  /** A known post keeps its stored directory, whatever its current title,
      and no row is touched. */
  lemma KnownPostKeepsPath(rows: map<string, Entry>, creator: string, postsPath: Path, id: string,
                           title: string, safeTitle: string)
    requires id in rows
    ensures MasqueradePath(rows, postsPath, id, title, safeTitle) == rows[id].path
    ensures MasqueradeRows(rows, creator, postsPath, id, title, safeTitle) == rows
  {
  }

  /** Resolving the same post twice gives the same directory both times,
      even when the title changed in between, and the second resolution
      changes nothing. */
  lemma ResolveIsStable(rows: map<string, Entry>, creator: string, postsPath: Path, id: string,
                        title1: string, title2: string, safeTitle: string)
    ensures var rows1 := MasqueradeRows(rows, creator, postsPath, id, title1, safeTitle);
      && MasqueradePath(rows1, postsPath, id, title2, safeTitle) == MasqueradePath(rows, postsPath, id, title1, safeTitle)
      && MasqueradeRows(rows1, creator, postsPath, id, title2, safeTitle) == rows1
  {
  }

  /** A new post gets exactly one new row. Its directory is the human name
      when that is free, and otherwise the human name with `_<post id>`
      appended once. */
  lemma NewPostGetsOneRow(rows: map<string, Entry>, creator: string, postsPath: Path, id: string,
                          title: string, safeTitle: string)
    requires id !in rows
    ensures var human := HumanName(id, title, safeTitle);
      var p := MasqueradePath(rows, postsPath, id, title, safeTitle);
      var rows1 := MasqueradeRows(rows, creator, postsPath, id, title, safeTitle);
      && rows1 == rows[id := Entry(creator, p)]
      && |rows1| == |rows| + 1
      && (p == JoinPath(postsPath, human) <==> !PathTaken(rows, JoinPath(postsPath, human)))
      && (p != JoinPath(postsPath, human) ==> p == JoinPath(postsPath, human + "_" + id))
  {
    var human := HumanName(id, title, safeTitle);
    var base := JoinPath(postsPath, human);
    var suffixed := JoinPath(postsPath, human + "_" + id);
    assert |suffixed| > |base|;
  }

  /** Two new posts with the same non-empty title, resolved one after the
      other while their common name is free, get two distinct directories:
      the first the plain name, the second the name suffixed with its id. */
  lemma SameTitleTwoPosts(rows: map<string, Entry>, creator: string, postsPath: Path, id1: string, id2: string,
                          title: string, safeTitle: string)
    requires id1 !in rows && id2 !in rows && id1 != id2 && |title| > 0
    requires !PathTaken(rows, JoinPath(postsPath, safeTitle))
    ensures var rows1 := MasqueradeRows(rows, creator, postsPath, id1, title, safeTitle);
      var p1 := MasqueradePath(rows, postsPath, id1, title, safeTitle);
      var p2 := MasqueradePath(rows1, postsPath, id2, title, safeTitle);
      && p1 == JoinPath(postsPath, safeTitle)
      && p2 == JoinPath(postsPath, safeTitle + "_" + id2)
      && p1 != p2
  {
    var rows1 := MasqueradeRows(rows, creator, postsPath, id1, title, safeTitle);
    var p1 := JoinPath(postsPath, safeTitle);
    assert rows1[id1].path == p1;
    assert PathTaken(rows1, p1);
    assert |JoinPath(postsPath, safeTitle + "_" + id2)| > |p1|;
  }

  /** Directories stay pairwise distinct as long as the name a new post
      receives was free; the suffixed name is the one case the resolution
      does not check. */
  lemma UniqueWhileChosenPathFree(rows: map<string, Entry>, creator: string, postsPath: Path, id: string,
                                  title: string, safeTitle: string)
    requires PathsUnique(rows)
    requires id !in rows ==> !PathTaken(rows, MasqueradePath(rows, postsPath, id, title, safeTitle))
    ensures PathsUnique(MasqueradeRows(rows, creator, postsPath, id, title, safeTitle))
  {
    var rows1 := MasqueradeRows(rows, creator, postsPath, id, title, safeTitle);
    if id !in rows {
      var p := MasqueradePath(rows, postsPath, id, title, safeTitle);
      forall a, b | a in rows1 && b in rows1 && rows1[a].path == rows1[b].path
        ensures a == b
      {
        if a != id && b != id {
          assert rows[a].path == rows[b].path;
        }
      }
    }
  }

  /** The suffixed name is not checked again: a post titled "t" with id "3"
      lands in the directory already registered for another post whose
      title was "t_3", so two posts share one directory. */
  lemma SuffixedNameCanCollide()
    ensures var rows := map["1" := Entry("c", "p/t"), "7" := Entry("c", "p/t_3")];
      && MasqueradePath(rows, "p", "3", "t", "t") == rows["7"].path
      && !PathsUnique(MasqueradeRows(rows, "c", "p", "3", "t", "t"))
  {
    var rows := map["1" := Entry("c", "p/t"), "7" := Entry("c", "p/t_3")];
    assert JoinPath("p", "t") == "p/t";
    assert rows["1"].path == "p/t";
    assert PathTaken(rows, "p/t");
    assert JoinPath("p", "t" + "_" + "3") == "p/t_3";
    var rows1 := MasqueradeRows(rows, "c", "p", "3", "t", "t");
    assert rows1["3"].path == rows1["7"].path;
  }

  /** The post database: one row per post id, searchable by directory. */
  class PostDb {
    var rows: map<string, Entry>

    constructor (rows: map<string, Entry>)
      ensures this.rows == rows
    {
      this.rows := rows;
    }

    method GetPost(id: string) returns (e: Option<Entry>)
      ensures e.Some? <==> id in rows
      ensures e.Some? ==> e.value == rows[id]
    {
      e := if id in rows then Some(rows[id]) else None;
    }

    method GetPostsByPath(p: Path) returns (ids: set<string>)
      ensures forall id :: id in ids <==> id in rows && rows[id].path == p
    {
      ids := set id | id in rows && rows[id].path == p;
    }

    method CreatePost(creator: string, p: Path, id: string)
      modifies this
      ensures rows == old(rows)[id := Entry(creator, p)]
    {
      rows := rows[id := Entry(creator, p)];
    }
  }

  /** The masquerade branch run for every post: look the post up, otherwise
      build the name, suffix it on a clash and insert the row. */
  method ResolvePostPath(db: PostDb, creator: string, postsPath: Path, id: string, title: string,
                         safeTitle: string)
    returns (path: Path)
    modifies db
    ensures path == MasqueradePath(old(db.rows), postsPath, id, title, safeTitle)
    ensures db.rows == MasqueradeRows(old(db.rows), creator, postsPath, id, title, safeTitle)
  {
    var existing := db.GetPost(id);
    if existing.Some? {
      return existing.value.path;
    }
    var human: string;
    if |title| > 0 {
      human := safeTitle;
    } else {
      human := id;
    }
    path := JoinPath(postsPath, human);
    var clash := db.GetPostsByPath(path);
    if |clash| > 0 {
      var w :| w in clash;
      path := JoinPath(postsPath, human + "_" + id);
    } else {
      assert !PathTaken(db.rows, path);
    }
    db.CreatePost(creator, path, id);
  }

  /** An object that serialises access to one database file. */
  class Lock {
    constructor ()
    {
    }
  }

  /** `_get_post_db_lock`: one lock per resolved database path, created on
      first request and returned unchanged afterwards. */
  class LockRegistry {
    var locks: map<string, Lock>

    constructor ()
      ensures locks == map[]
    {
      locks := map[];
    }

    method GetLock(key: string) returns (l: Lock)
      modifies this
      ensures key in locks && locks[key] == l
      ensures key in old(locks) ==> locks == old(locks)
      ensures key !in old(locks) ==> fresh(l) && locks == old(locks)[key := l]
    {
      if key !in locks {
        var created := new Lock();
        locks := locks[key := created];
      }
      l := locks[key];
    }
  }
}
