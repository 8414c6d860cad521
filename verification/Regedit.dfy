/** The register table of one process as the code runs it: `RegTable` with the table it has read and its
    commits, and the view of `Regedit`. Every method is proved against the function of RegLogs that says
    what it does. */
module Regedit {
  import opened RegLogs
  import opened Sequences
  import opened Wire

  /** The file that all processes share. */
  class File {
    var records: seq<Record>

    constructor ()
      ensures records == Blanks()
    {
      records := Blanks();
    }
  }

  class Regedit {
    const pid: nat
    var w2: seq<Record>
    var view: seq<Record>
    /** The slots committed: `commits_` points at their records in the view. */
    var commits: seq<nat>

    predicate Valid()
      reads this
    {
      |w2| == |view| == SLOTS && forall i | 0 <= i < |commits| :: commits[i] < SLOTS
    }

    constructor (file: File, pid: nat)
      requires |file.records| == SLOTS
      ensures Valid() && this.pid == pid && commits == []
      ensures w2 == Load(file.records, SLOTS) && view == Blanks()
    {
      w2, view, commits := Blanks(), Blanks(), [];
      this.pid := pid;
      new;
      W2(file);
    }

    /** `RegTable::W2`. */
    method W2(file: File)
      requires |file.records| == SLOTS
      modifies `w2
      ensures w2 == Load(file.records, SLOTS)
    {
      w2 := Blanks();
      for i := 0 to SLOTS
        invariant w2 == Load(file.records, i)
      {
        var r := file.records[i];
        if r.Ok() {
          w2 := w2[Ix(r.magic) := r];
        }
      }
    }

    /** `RegTable::ReCalcLog`. */
    method ReCalcLog(log: nat) returns (r: nat)
      ensures r == NextLog(w2, log)
      ensures r > log && forall i | 0 <= i < |w2| && w2[i].Ok() :: r > w2[i].log
      ensures r == log + 1 || exists i :: 0 <= i < |w2| && w2[i].Ok() && r == w2[i].log + 1
    {
      r := log;
      for i := 0 to |w2|
        invariant r == Max(w2[..i], log)
      {
        assert w2[..i + 1][..i] == w2[..i];
        if w2[i].Ok() && r < w2[i].log {
          r := w2[i].log;
        }
      }
      assert w2[..|w2|] == w2;
      r := r + 1;
    }

    /** `Regedit::AddNode`. */
    method AddNode(magic: nat, kind: nat)
      requires Valid()
      modifies `view, `commits
      ensures Valid() && commits == old(commits) + [Ix(magic)]
      ensures view == old(view)[Ix(magic) := Changed(w2, old(view)[Ix(magic)], Add(magic, kind, pid))]
      ensures var r, s := old(view)[magic % SLOTS], view[magic % SLOTS];
              s == Record(r.tmark, kind, magic, pid, s.log, {}) && s.log == NextLog(w2, r.log)
    {
      var i := Ix(magic);
      var log := ReCalcLog(view[i].log);
      view := view[i := Record(view[i].tmark, kind, magic, pid, log, {})];
      commits := commits + [i];
    }

    /** `Regedit::AddEdge`. */
    method AddEdge(magic: nat, pos: nat)
      requires Valid()
      modifies `view, `commits
      ensures Valid() && commits == old(commits) + [Ix(magic)]
      ensures view == old(view)[Ix(magic) := Changed(w2, old(view)[Ix(magic)], Link(pos))]
      ensures var r, s := old(view)[magic % SLOTS], view[magic % SLOTS];
              if r.Ok() then s == r.(see := r.see + {pos}, log := s.log) && s.log == NextLog(w2, r.log) else s == r
    {
      var i := Ix(magic);
      if view[i].Ok() {
        var log := ReCalcLog(view[i].log);
        view := view[i := view[i].(see := view[i].see + {pos}, log := log)];
      }
      commits := commits + [i];
    }

    /** `Regedit::DelEdge`. */
    method DelEdge(magic: nat, pos: nat)
      requires Valid()
      modifies `view, `commits
      ensures Valid() && commits == old(commits) + [Ix(magic)]
      ensures view == old(view)[Ix(magic) := Changed(w2, old(view)[Ix(magic)], Unlink(pos))]
      ensures var r, s := old(view)[magic % SLOTS], view[magic % SLOTS];
              if r.Ok() then s == r.(see := r.see - {pos}, log := s.log) && s.log == NextLog(w2, r.log) else s == r
    {
      var i := Ix(magic);
      if view[i].Ok() {
        var r := view[i];
        assert pos !in r.see ==> r.see - {pos} == r.see;
        if pos in r.see {
          r := r.(see := r.see - {pos});
        }
        var log := ReCalcLog(r.log);
        view := view[i := r.(log := log)];
      }
      commits := commits + [i];
    }

    /** The saving phase of `RegTable::Merge`. */
    method SaveCommits(file: File)
      requires Valid() && |file.records| == SLOTS
      modifies `w2, `commits, file
      ensures Valid() && commits == []
      ensures (w2, file.records) == Save(old(w2), old(file.records), view, old(commits))
    {
      ghost var w, f := w2, file.records;
      for k := 0 to |commits|
        invariant Valid() && commits == old(commits) && view == old(view)
        invariant (w2, file.records) == Save(w, f, view, commits[..k])
      {
        assert commits[..k + 1][..k] == commits[..k];
        var r := view[commits[k]];
        var i := Ix(r.magic);
        if w2[i].log < r.log {
          w2 := w2[i := r];
          file.records := file.records[i := r];
        }
      }
      assert commits[..|commits|] == commits;
      commits := [];
    }

    /** The updating phase of `RegTable::Merge`. */
    method UpdateView()
      requires Valid()
      modifies `view
      ensures Valid() && view == UpdateAll(old(view), w2, SLOTS)
    {
      for i := 0 to SLOTS
        invariant Valid() && view == UpdateAll(old(view), w2, i)
      {
        var r := w2[i];
        if r.Ok() {
          var mine := view[Ix(r.magic)];
          if mine.log < r.log || mine.tmark < r.tmark {
            view := view[Ix(r.magic) := r];
          }
        }
      }
    }

    /** The marking phase of `RegTable::Merge`. */
    method MarkSlot(file: File, magic: nat, tmark: nat)
      requires Valid() && |file.records| == SLOTS
      modifies `w2, file
      ensures Valid() && w2 == old(w2)[Ix(magic) := old(w2)[Ix(magic)].(tmark := tmark)]
      ensures file.records == old(file.records)[Ix(magic) := old(file.records)[Ix(magic)].(tmark := tmark)]
    {
      var i := Ix(magic);
      w2 := w2[i := w2[i].(tmark := tmark)];
      file.records := file.records[i := file.records[i].(tmark := tmark)];
    }

    /** `RegTable::Merge`, when no other process comes in between: the view has, for every slot, what the
        file had or the process itself had committed, and the file has the commits. */
    method Merge(file: File, magic: nat, tmark: nat)
      requires Valid() && |file.records| == SLOTS
      modifies this, file
      ensures Valid() && commits == [] && |file.records| == SLOTS
      ensures var w := Load(old(file.records), SLOTS);
              var (u, f) := Save(w, old(file.records), old(view), old(commits));
              && view == UpdateAll(old(view), u, SLOTS)
              && w2 == u[Ix(magic) := u[Ix(magic)].(tmark := tmark)]
              && file.records == f[Ix(magic) := f[Ix(magic)].(tmark := tmark)]
    {
      hide Load, Save, UpdateAll;
      W2(file);
      SaveCommits(file);
      UpdateView();
      MarkSlot(file, magic, tmark);
    }
  }
}
