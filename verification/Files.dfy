/** Sets of files, listed in ascending order. */
module Files {
  import opened Lsns
  import opened Sorting

  ghost function SortedFiles(s: set<FileNum>): (files: seq<FileNum>)
    ensures Ascending(files) && forall f :: f in files <==> f in s
  {
    SortedMembers(s);
    SortedIsAscending(s);
    var files := Sorted(s);
    assert forall i :: 0 <= i < |files| ==> files[i] in s;
    files
  }

  method FilesIn(s: set<FileNum>) returns (files: seq<FileNum>)
    ensures files == SortedFiles(s)
  {
    SortedMembers(s);
    var q := SortedElements(s);
    assert forall i :: 0 <= i < |q| ==> q[i] in s;
    files := q;
  }
}
