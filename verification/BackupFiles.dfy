// Files and digests of a backup: relative POSIX paths, file trees, and the chunked SHA-256.
module BackupFiles {
  newtype Byte = x: int | 0 <= x < 256
  type Bytes = seq<Byte>

  predicate IsSha256(s: string) {
    |s| == 64 && forall i :: 0 <= i < |s| ==> '0' <= s[i] <= '9' || 'a' <= s[i] <= 'f'
  }

  type Digest = s: string | IsSha256(s) witness seq(64, _ => '0')

  // SHA-256 as lowercase hex. Only the shape of its answers is assumed.
  const Sha256: Bytes -> Digest

  // -- The digest of a file, chunk by chunk --

  const CHUNK: nat := 1024 * 1024

  // `hashlib.sha256()`: a digest of everything it has been fed.
  class Hasher {
    var fed: Bytes

    constructor ()
      ensures fed == []
    {
      fed := [];
    }

    method Update(chunk: Bytes)
      modifies this
      ensures fed == old(fed) + chunk
    {
      fed := fed + chunk;
    }

    method HexDigest() returns (d: Digest)
      ensures d == Sha256(fed)
    {
      d := Sha256(fed);
    }
  }

  // A file opened for reading.
  class Reader {
    const content: Bytes
    var position: nat

    constructor (content: Bytes)
      ensures this.content == content && position == 0
    {
      this.content := content;
      position := 0;
    }

    // `read(limit)`: the next `limit` bytes, or what is left of them.
    method Read(limit: nat) returns (chunk: Bytes)
      requires position <= |content|
      modifies this
      ensures position == if |content| - old(position) < limit then |content| else old(position) + limit
      ensures chunk == content[old(position)..position]
    {
      var end := if |content| - position < limit then |content| else position + limit;
      chunk := content[position..end];
      position := end;
    }
  }

  // `_sha256`: reading a megabyte at a time digests the whole content.
  method Sha256Of(content: Bytes) returns (d: Digest)
    ensures d == Sha256(content)
  {
    var handle := new Reader(content);
    var digest := new Hasher();
    var chunk := handle.Read(CHUNK);
    while chunk != []
      invariant handle.position <= |content| && handle.content == content
      invariant digest.fed + chunk == content[..handle.position]
      invariant chunk == [] ==> handle.position == |content|
      decreases |content| - handle.position, |chunk|
    {
      digest.Update(chunk);
      chunk := handle.Read(CHUNK);
    }
    assert content[..|content|] == content;
    d := digest.HexDigest();
  }

  // -- Paths --

  function FirstSlash(p: string): (i: nat)
    ensures i <= |p| && (i < |p| ==> p[i] == '/') && forall j :: 0 <= j < i ==> p[j] != '/'
  {
    if p == "" || p[0] == '/' then 0 else 1 + FirstSlash(p[1..])
  }

  function Keep(component: string): seq<string> {
    if component == "" || component == "." then [] else [component]
  }

  // The parts of a path, as `Path` sees them: empty and `.` components are dropped.
  function Parts(p: string): seq<string>
    decreases |p|
  {
    var i := FirstSlash(p);
    if i == |p| then Keep(p) else Keep(p[..i]) + Parts(p[i + 1..])
  }

  function Join(parts: seq<string>): string {
    if parts == [] then "" else if |parts| == 1 then parts[0] else parts[0] + "/" + Join(parts[1..])
  }

  // Where a relative path without `..` leads, below the directory it is resolved against.
  function Resolved(p: string): string {
    Join(Parts(p))
  }

  predicate StaysInside(p: string) {
    !("/" <= p) && ".." !in Parts(p)
  }

  function BaseName(p: string): string {
    if Parts(p) == [] then "" else Parts(p)[|Parts(p)| - 1]
  }

  // A path as a directory listing spells it.
  predicate Clean(p: string) {
    p != "" && StaysInside(p) && Resolved(p) == p
  }

  // The files below a directory: every path as the listing spells it.
  type Tree = map<string, Bytes>

  ghost predicate Listing(tree: Tree) {
    forall p :: p in tree ==> Clean(p)
  }

  lemma FirstSlashIs(p: string, i: nat)
    requires i < |p| && p[i] == '/' && forall j :: 0 <= j < i ==> p[j] != '/'
    ensures FirstSlash(p) == i
  {
  }

  lemma PartsBelow(dir: string, p: string)
    requires dir != "" && dir != "." && '/' !in dir
    ensures Parts(dir + "/" + p) == [dir] + Parts(p)
  {
    var q := dir + "/" + p;
    assert forall j :: 0 <= j < |dir| ==> q[j] == dir[j] && dir[j] in dir;
    FirstSlashIs(q, |dir|);
    assert q[..|dir|] == dir && q[|dir| + 1..] == p;
  }

  // A clean path below a directory is clean, and the other way round.
  lemma CleanBelow(dir: string, p: string)
    requires dir != "" && dir != "." && dir != ".." && '/' !in dir && Clean(p)
    ensures Clean(dir + "/" + p)
  {
    PartsBelow(dir, p);
    assert Parts(p) != [];
    var q := dir + "/" + p;
    assert Parts(q)[0] == dir && Parts(q)[1..] == Parts(p);
    assert q[0] == dir[0] && dir[0] in dir;
  }

  lemma {:induction false} NoEmptyPart(p: string)
    ensures forall part :: part in Parts(p) ==> part != ""
    decreases |p|
  {
    var i := FirstSlash(p);
    if i < |p| {
      NoEmptyPart(p[i + 1..]);
    }
  }

  lemma {:induction false} JoinEnds(parts: seq<string>)
    requires parts != [] && parts[|parts| - 1] != ""
    ensures Join(parts) != ""
    ensures var last := parts[|parts| - 1]; Join(parts)[|Join(parts)| - 1] == last[|last| - 1]
  {
    if |parts| > 1 {
      JoinEnds(parts[1..]);
    }
  }

  // A clean path ends as its base name does.
  lemma BaseNameEnds(p: string)
    requires Clean(p)
    ensures BaseName(p) != "" && BaseName(p)[|BaseName(p)| - 1] == p[|p| - 1]
  {
    NoEmptyPart(p);
    assert Parts(p) != [];
    assert BaseName(p) in Parts(p);
    JoinEnds(Parts(p));
  }

  // Dots and doubled slashes at the front of a path lead nowhere.
  lemma DotsVanish(p: string)
    ensures Parts("./" + p) == Parts(p) && Parts("/" + p) == Parts(p)
  {
    assert FirstSlash("./" + p) == 1 && ("./" + p)[..1] == "." && ("./" + p)[2..] == p;
    assert FirstSlash("/" + p) == 0 && ("/" + p)[..0] == "" && ("/" + p)[1..] == p;
  }
}
