/** `install_immutable_bytes` and `install_temporary_file` as one undisturbed call runs them. */
module InstallStore {
  import opened Wrappers
  import opened InstallProtocol

  class Directory {
    var files: Files

    ghost predicate Valid()
      reads this
    {
      FilesOk(files)
    }

    constructor (files: Files)
      requires FilesOk(files)
      ensures Valid() && this.files == files
    {
      this.files := files;
    }

    /** A stable read: one link at every look, same identity before and after. */
    method ReadRegular(name: Name) returns (r: Result<Bytes, Reason>)
      requires Valid()
      ensures r == if name !in files.names then Failure(Absent)
                   else if StatOf(files, files.names[name]).links != 1 then Failure(SeveralLinks)
                   else Success(files.inodes[files.names[name]].content)
    {
      if name !in files.names {
        return Failure(Absent);
      }
      var before := StatOf(files, files.names[name]);
      if before.links != 1 {
        return Failure(SeveralLinks);
      }
      var content := files.inodes[before.ino].content;
      var after := StatOf(files, before.ino);
      if after != before || |content| != after.size {
        return Failure(ChangedWhileRead);
      }
      return Success(content);
    }

    method Remove(name: Name, ino: nat)
      requires Valid() && ino in files.inodes
      modifies this
      ensures Valid() && files == Unlink(old(files), name, ino)
    {
      if name in files.names && files.names[name] == ino {
        files := Files(files.names - {name}, Touched(files, ino), files.unused);
      }
    }

    /** Install the payload under the destination name, or reuse what is there if it is the same,
        or refuse; never replace it, and leave no temporary name. */
    method InstallBytes(w: Worker, payload: Bytes) returns (outcome: InstallOutcome)
      requires Valid() && Temporary(w) !in files.names
      modifies this
      ensures Valid()
      ensures outcome ==
        if Destination !in old(files).names then Installed
        else if StatOf(old(files), old(files).names[Destination]).links != 1 then Refused(SeveralLinks)
        else if old(files).inodes[old(files).names[Destination]].content != payload then Refused(Differs)
        else Reused
      ensures files.names == if outcome == Installed then old(files).names[Destination := old(files).unused]
        else old(files).names
      ensures outcome == Installed ==> files.inodes[files.names[Destination]].content == payload
      ensures forall ino :: ino in old(files).inodes ==>
        ino in files.inodes && files.inodes[ino] == old(files).inodes[ino]
    {
      var temporary := Temporary(w);
      var ino := files.unused;
      ghost var start := files;
      files := Create(files, temporary);
      files := Write(files, ino, payload);
      assert NamesOf(files, ino) == {temporary};
      assert forall n :: n in start.names ==> files.names[n] == start.names[n] != ino;
      if Destination in files.names {
        assert NamesOf(files, files.names[Destination]) == NamesOf(start, start.names[Destination]);
        var existing := ReadRegular(Destination);
        Remove(temporary, ino);
        assert files.names == start.names;
        if existing.Failure? {
          return Refused(existing.error);
        }
        if existing.value != payload {
          return Refused(Differs);
        }
        return Reused;
      }
      files := Link(files, ino, Destination);
      Remove(temporary, ino);
      assert files.names == start.names[Destination := ino];
      assert NamesOf(files, ino) == {Destination};
      assert |NamesOf(files, ino)| == |{Destination}| == 1;
      var final := ReadRegular(Destination);
      // Undisturbed, the read-back cannot fail, so the branch that takes the link back is not needed.
      assert final == Success(payload);
      return Installed;
    }
  }
}
