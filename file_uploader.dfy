/** The file uploader's list of chosen files: a selection appends the files
    whose names are new, and a file can be removed by its position. */
module FileUploader {
  import opened JsValues

  /** A browser `File`; only its name matters to the list. */
  datatype File = File(name: string, content: JsValue)

  /** `files.map(f => f.name)`. */
  function Names(files: seq<File>): (r: seq<string>)
    ensures |r| == |files| && forall k :: 0 <= k < |files| ==> r[k] == files[k].name
  {
    if files == [] then [] else [files[0].name] + Names(files[1..])
  }

  /** The selected files `handleOnChangeFiles` pushes: those whose name is
      not among the names listed before the selection, in selection order. */
  function Admitted(existingNames: seq<string>, selected: seq<File>): (r: seq<File>)
    ensures forall f :: f in r <==> f in selected && f.name !in existingNames
    ensures |r| <= |selected|
    decreases |selected|
  {
    if selected == [] then []
    else
      var last := selected[|selected| - 1];
      var front := selected[..|selected| - 1];
      assert forall f :: f in selected <==> f in front || f == last;
      Admitted(existingNames, front) + (if last.name !in existingNames then [last] else [])
  }

  /** Admission keeps the selection order: it distributes over
      concatenation, and one file is admitted iff its name is new. */
  lemma {:induction false} AdmittedAppend(existingNames: seq<string>, a: seq<File>, b: seq<File>)
    ensures Admitted(existingNames, a + b) == Admitted(existingNames, a) + Admitted(existingNames, b)
    decreases |b|
  {
    if b == [] {
      assert a + b == a;
    } else {
      assert (a + b)[..|a + b| - 1] == a + b[..|b| - 1];
      assert (a + b)[|a + b| - 1] == b[|b| - 1];
      AdmittedAppend(existingNames, a, b[..|b| - 1]);
    }
  }

  lemma AdmittedOne(existingNames: seq<string>, f: File)
    ensures Admitted(existingNames, [f]) == if f.name !in existingNames then [f] else []
  {
    assert [f][..0] == [];
  }

  /** Two new files with the same name in one selection are both kept: only
      the names listed before the selection are checked. */
  lemma SameNameInOneSelection()
    ensures Admitted([], [File("a.glb", Num(1.0)), File("a.glb", Num(2.0))])
         == [File("a.glb", Num(1.0)), File("a.glb", Num(2.0))]
  {
    var f1 := File("a.glb", Num(1.0));
    var f2 := File("a.glb", Num(2.0));
    assert [f1, f2][..1] == [f1];
    assert [f1][..0] == [];
    assert Admitted([], [f1]) == [] + [f1];
  }

  /** The list without the entry at position `index`; every other entry kept
      in order. */
  function WithoutIndex<T>(s: seq<T>, index: int): (r: seq<T>)
    ensures 0 <= index < |s| ==> r == s[..index] + s[index + 1..]
    ensures !(0 <= index < |s|) ==> r == s
    decreases |s|
  {
    if s == [] then []
    else
      var front := WithoutIndex(s[..|s| - 1], index);
      if |s| - 1 != index then
        assert 0 <= index < |s| - 1 ==> front + [s[|s| - 1]] == s[..index] + s[index + 1..];
        front + [s[|s| - 1]]
      else
        assert s[..|s| - 1][..index] == s[..index];
        front
  }

  /** The selection loop of `handleOnChangeFiles`. */
  method AppendNew(files: seq<File>, selected: seq<File>) returns (newFiles: seq<File>)
    ensures newFiles == files + Admitted(Names(files), selected)
  {
    newFiles := files;
    var existingFileNames := Names(files);
    for k := 0 to |selected|
      invariant newFiles == files + Admitted(existingFileNames, selected[..k])
    {
      assert selected[..k + 1][..k] == selected[..k];
      if selected[k].name !in existingFileNames {
        newFiles := newFiles + [selected[k]];
      }
    }
    assert selected[..|selected|] == selected;
  }

  /** The uploader's state: the files shown and the ref the removal handler
      reads, which an effect brings up to date after each change. */
  class Uploader {
    var files: seq<File>
    var filesRef: seq<File>

    constructor()
      ensures files == [] && filesRef == []
    {
      files := [];
      filesRef := [];
    }

    /** `handleOnChangeFiles`. */
    method HandleOnChangeFiles(selected: seq<File>)
      modifies this
      ensures files == old(files) + Admitted(Names(old(files)), selected)
      ensures filesRef == old(filesRef)
    {
      files := AppendNew(files, selected);
    }

    /** The effect `filesRef.current = files`. */
    method SyncFilesRef()
      modifies this
      ensures filesRef == old(files) && files == old(files)
    {
      filesRef := files;
    }

    /** `removeFileHandler`: the entries of the ref other than the one at
        `index`. */
    method RemoveFile(index: int)
      modifies this
      ensures files == WithoutIndex(old(filesRef), index)
      ensures filesRef == old(filesRef)
    {
      files := WithoutIndex(filesRef, index);
    }
  }

  /** A selection never removes or reorders the listed files, and never
      adds a file whose name was listed. */
  lemma SelectionOnlyAppends(files: seq<File>, selected: seq<File>)
    ensures var r := files + Admitted(Names(files), selected);
            && r[..|files|] == files
            && forall k :: |files| <= k < |r| ==> r[k] in selected && r[k].name !in Names(files)
  {
    var r := files + Admitted(Names(files), selected);
    forall k | |files| <= k < |r|
      ensures r[k] in selected && r[k].name !in Names(files)
    {
      assert r[k] in Admitted(Names(files), selected);
    }
  }
}
