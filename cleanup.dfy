/**
 * Delete-on-finish: which uploaded files the middleware deletes once the
 * response has finished, as chosen by its `deleteOnFinish` option.
 */
module Cleanup {
  import opened Values

  /**
   * The `deleteOnFinish` option: absent (undefined or null), an array of
   * names, a boolean or a number.
   */
  datatype DeleteOption = Unset | Names(names: seq<string>) | Flag(flag: bool) | Number(x: real)

  /** Whether an option that is not an array is loosely equal (`==`) to `true`. */
  predicate LooselyTrue(o: DeleteOption)
  {
    match o
    case Flag(b) => b
    case Number(x) => x == 1.0
    case _ => false
  }

  /**
   * `Object.keys` of the decoded files object: every top-level key exactly
   * once. The order JavaScript gives the keys is not modelled.
   */
  method ObjectKeys(m: map<string, Node>) returns (keys: seq<string>)
    ensures forall k :: k in m <==> k in keys
    ensures forall i, j :: 0 <= i < j < |keys| ==> keys[i] != keys[j]
  {
    keys := [];
    var rest := m.Keys;
    while rest != {}
      invariant forall k :: k in m <==> k in keys || k in rest
      invariant forall k :: k in keys ==> k !in rest
      invariant forall i, j :: 0 <= i < j < |keys| ==> keys[i] != keys[j]
      decreases rest
    {
      var k :| k in rest;
      keys := keys + [k];
      rest := rest - {k};
    }
  }

  /**
   * The names to delete, chosen from the decoded files object: an array
   * option is taken as it is, an option loosely equal to `true` selects
   * every top-level key of the files object once, and anything else
   * selects nothing.
   */
  method Select(o: DeleteOption, decoded: map<string, Node>) returns (r: seq<string>)
    ensures IsSelection(o, decoded, r)
  {
    if o.Names? {
      r := o.names;
    } else if LooselyTrue(o) {
      r := ObjectKeys(decoded);
    } else {
      r := [];
    }
  }

  /**
   * The names an option selects from a decoded files object: an array
   * option exactly, an option loosely equal to `true` every top-level key
   * once, anything else none.
   */
  ghost predicate IsSelection(o: DeleteOption, decoded: map<string, Node>, r: seq<string>)
  {
    && (o.Names? ==> r == o.names)
    && (!o.Names? && LooselyTrue(o) ==>
         (forall k :: k in decoded <==> k in r) && (forall i, j :: 0 <= i < j < |r| ==> r[i] != r[j]))
    && (!o.Names? && !LooselyTrue(o) ==> r == [])
  }

  /** `req.files[name]`: the entry under a top-level key of the files object. */
  function Lookup(files: Option<Node>, name: string): Option<Node>
  {
    if files.Some? && files.value.Obj? && name in files.value.fields
    then Some(files.value.fields[name])
    else None
  }

  /** Whether `req.files[name]` is truthy, so that a deletion is attempted. */
  predicate Present(files: Option<Node>, name: string)
  {
    var entry := Lookup(files, name);
    entry.Some? && NodeTruthy(entry.value)
  }

  /**
   * `file.path`: the stored path of a single uploaded file, and undefined
   * (None) for anything else, such as an array of files or a nested object.
   */
  function PathOf(n: Node): Option<string>
  {
    if n.Leaf? && n.value.File? then Some(n.value.upload.part.path) else None
  }

  /**
   * Whether `name` has a truthy entry whose path is undefined. `fs.unlink`
   * rejects an undefined path by throwing before it calls back.
   */
  predicate Unpathed(files: Option<Node>, name: string)
  {
    Present(files, name) && PathOf(Lookup(files, name).value).None?
  }

  /**
   * The paths unlinked, in order, when the listed names are deleted as
   * written: a name without a truthy entry is skipped, and the first name
   * whose entry has no path throws out of the iteration, so no later name
   * is reached.
   */
  function Unlinks(names: seq<string>, files: Option<Node>): seq<string>
    decreases |names|
  {
    if names == [] then []
    else if !Present(files, names[0]) then Unlinks(names[1..], files)
    else match PathOf(Lookup(files, names[0]).value)
      case None => []
      case Some(p) => [p] + Unlinks(names[1..], files)
  }

  /** Whether `names[i]` is the first listed name whose truthy entry has no path. */
  predicate FirstUnpathed(names: seq<string>, files: Option<Node>, i: int)
  {
    0 <= i < |names| && Unpathed(files, names[i]) && forall j :: 0 <= j < i ==> !Unpathed(files, names[j])
  }

  /** Whether deleting the listed names as written throws. */
  predicate Throws(names: seq<string>, files: Option<Node>)
    decreases |names|
  {
    names != [] && (Unpathed(files, names[0]) || Throws(names[1..], files))
  }

  /** Each unlinked path is the path of a listed name's truthy entry. */
  lemma {:induction false} UnlinksAreListed(names: seq<string>, files: Option<Node>)
    ensures forall p :: p in Unlinks(names, files) ==>
      exists i :: 0 <= i < |names| && Present(files, names[i]) && PathOf(Lookup(files, names[i]).value) == Some(p)
    decreases |names|
  {
    if names != [] {
      var rest := names[1..];
      UnlinksAreListed(rest, files);
      forall p | p in Unlinks(names, files)
        ensures exists i :: 0 <= i < |names| && Present(files, names[i]) && PathOf(Lookup(files, names[i]).value) == Some(p)
      {
        if p in Unlinks(rest, files) {
          var i :| 0 <= i < |rest| && Present(files, rest[i]) && PathOf(Lookup(files, rest[i]).value) == Some(p);
          assert names[i + 1] == rest[i];
        } else {
          assert Present(files, names[0]) && PathOf(Lookup(files, names[0]).value) == Some(p);
        }
      }
    }
  }

  /**
   * Deleting a list of names as written: the iteration throws exactly when
   * some listed name has a truthy entry without a path, and then nothing
   * after the first such name is unlinked; when it does not throw, every
   * listed name with a truthy entry has its path unlinked.
   */
  lemma {:induction false} UnlinksSkipAbsent(names: seq<string>, files: Option<Node>)
    ensures Throws(names, files) <==> exists i :: 0 <= i < |names| && Unpathed(files, names[i])
    ensures forall i :: FirstUnpathed(names, files, i) ==> Unlinks(names, files) == Unlinks(names[..i], files)
    ensures !Throws(names, files) ==> forall i :: 0 <= i < |names| && Present(files, names[i]) ==>
      PathOf(Lookup(files, names[i]).value).value in Unlinks(names, files)
    decreases |names|
  {
    if names != [] {
      var rest := names[1..];
      UnlinksSkipAbsent(rest, files);
      if Throws(names, files) && !Unpathed(files, names[0]) {
        var i :| 0 <= i < |rest| && Unpathed(files, rest[i]);
        assert Unpathed(files, names[i + 1]);
      }
      if exists i :: 0 <= i < |names| && Unpathed(files, names[i]) {
        var i :| 0 <= i < |names| && Unpathed(files, names[i]);
        if i > 0 {
          assert Unpathed(files, rest[i - 1]);
        }
      }
      forall i | FirstUnpathed(names, files, i)
        ensures Unlinks(names, files) == Unlinks(names[..i], files)
      {
        if i > 0 {
          assert names[..i][0] == names[0];
          assert names[..i][1..] == rest[..i - 1];
          assert forall j :: 0 <= j < i - 1 ==> !Unpathed(files, rest[j]) by {
            forall j | 0 <= j < i - 1 ensures rest[j] == names[j + 1] { }
          }
        }
      }
      forall i | 0 <= i < |names| && Present(files, names[i]) && !Throws(names, files)
        ensures PathOf(Lookup(files, names[i]).value).value in Unlinks(names, files)
      {
        if i > 0 {
          assert rest[i - 1] == names[i];
        }
      }
    }
  }

  /**
   * With an option loosely equal to `true`, when every truthy top-level
   * entry of the files object is a single file, every one of them has its
   * path unlinked, the iteration does not throw, and nothing outside the
   * files object is touched.
   */
  lemma DeleteAllReachesEveryUpload(m: map<string, Node>, keys: seq<string>)
    requires forall k :: k in m <==> k in keys
    requires forall k :: k in m && NodeTruthy(m[k]) ==> PathOf(m[k]).Some?
    ensures !Throws(keys, Some(Obj(m)))
    ensures forall k :: k in m && NodeTruthy(m[k]) ==> PathOf(m[k]).value in Unlinks(keys, Some(Obj(m)))
    ensures forall p :: p in Unlinks(keys, Some(Obj(m))) ==>
      exists k :: k in m && NodeTruthy(m[k]) && PathOf(m[k]) == Some(p)
  {
    var files := Some(Obj(m));
    UnlinksSkipAbsent(keys, files);
    UnlinksAreListed(keys, files);
    forall k | k in m && NodeTruthy(m[k])
      ensures PathOf(m[k]).value in Unlinks(keys, files)
    {
      var i :| 0 <= i < |keys| && keys[i] == k;
      assert Present(files, keys[i]);
    }
    forall p | p in Unlinks(keys, files)
      ensures exists k :: k in m && NodeTruthy(m[k]) && PathOf(m[k]) == Some(p)
    {
      var i :| 0 <= i < |keys| && Present(files, keys[i]) && PathOf(Lookup(files, keys[i]).value) == Some(p);
      assert keys[i] in m && NodeTruthy(m[keys[i]]);
    }
  }

  /**
   * Two files attached under one name are stored as an array, which has no
   * path: deleting every upload throws at that name and neither file is
   * unlinked, nor is any file listed after it.
   */
  lemma RepeatedUploadsAreNotDeleted(a: Upload, b: Upload, c: Upload)
    ensures var files := Some(Obj(map["text" := List([Leaf(File(a)), Leaf(File(b))]), "doc" := Leaf(File(c))]));
      Throws(["text", "doc"], files) && Unlinks(["text", "doc"], files) == []
  {
    var files := Some(Obj(map["text" := List([Leaf(File(a)), Leaf(File(b))]), "doc" := Leaf(File(c))]));
    assert Unpathed(files, "text");
  }

  /**
   * The paths of every uploaded file inside an entry of the files object:
   * the entry itself when it is a file, and otherwise the files among an
   * array's items or an object's values, however deeply nested.
   */
  function FilePaths(n: Node): set<string>
  {
    match n
    case Leaf(v) => if v.File? then {v.upload.part.path} else {}
    case List(items) => set i, p | 0 <= i < |items| && p in FilePaths(items[i]) :: p
    case Obj(fields) => set k, p | k in fields && p in FilePaths(fields[k]) :: p
  }

  /**
   * The deletion the option's documentation ("true for all files") and the
   * handler's "errors are ignored" evidently intend: every listed name with
   * a truthy entry is tried, every uploaded file inside that entry is
   * unlinked, and a failure does not stop the others.
   */
  function UnlinksIntended(names: seq<string>, files: Option<Node>): set<string>
    decreases |names|
  {
    if names == [] then {}
    else
      (if Present(files, names[0]) then FilePaths(Lookup(files, names[0]).value) else {})
        + UnlinksIntended(names[1..], files)
  }

  /**
   * The intended deletion unlinks exactly the files inside the listed
   * names' truthy entries, whatever shape those entries have.
   */
  lemma {:induction false} IntendedReachesEveryFile(names: seq<string>, files: Option<Node>)
    ensures forall p :: p in UnlinksIntended(names, files) <==>
      exists i :: 0 <= i < |names| && Present(files, names[i]) && p in FilePaths(Lookup(files, names[i]).value)
    decreases |names|
  {
    if names != [] {
      var rest := names[1..];
      IntendedReachesEveryFile(rest, files);
      forall p | p in UnlinksIntended(names, files)
        ensures exists i :: 0 <= i < |names| && Present(files, names[i]) && p in FilePaths(Lookup(files, names[i]).value)
      {
        if p in UnlinksIntended(rest, files) {
          var i :| 0 <= i < |rest| && Present(files, rest[i]) && p in FilePaths(Lookup(files, rest[i]).value);
          assert names[i + 1] == rest[i];
        }
      }
      forall i, p | 0 <= i < |names| && Present(files, names[i]) && p in FilePaths(Lookup(files, names[i]).value)
        ensures p in UnlinksIntended(names, files)
      {
        if i > 0 {
          assert rest[i - 1] == names[i];
        }
      }
    }
  }

  /**
   * Where the written deletion does not throw, every truthy listed entry is
   * a single file, and it unlinks exactly the paths the intended one does.
   */
  lemma {:induction false} IntendedAgreesWithoutThrow(names: seq<string>, files: Option<Node>)
    requires !Throws(names, files)
    ensures forall p :: p in Unlinks(names, files) <==> p in UnlinksIntended(names, files)
    decreases |names|
  {
    if names != [] {
      IntendedAgreesWithoutThrow(names[1..], files);
      if Present(files, names[0]) {
        var n := Lookup(files, names[0]).value;
        assert n.Leaf? && n.value.File?;
        assert FilePaths(n) == {PathOf(n).value};
      }
    }
  }

  /**
   * On the shape where the written deletion unlinks nothing, the intended
   * one unlinks both files of the array and the file listed after it.
   */
  lemma RepeatedUploadsIntended(a: Upload, b: Upload, c: Upload)
    ensures var files := Some(Obj(map["text" := List([Leaf(File(a)), Leaf(File(b))]), "doc" := Leaf(File(c))]));
      UnlinksIntended(["text", "doc"], files) == {a.part.path, b.part.path, c.part.path}
  {
    var items := [Leaf(File(a)), Leaf(File(b))];
    var files := Some(Obj(map["text" := List(items), "doc" := Leaf(File(c))]));
    assert FilePaths(items[0]) == {a.part.path} && FilePaths(items[1]) == {b.part.path};
    assert FilePaths(List(items)) == {a.part.path, b.part.path};
    assert ["text", "doc"][1..] == ["doc"] && ["doc"][1..] == [];
  }
}
