/** The areas of a task's address space, counted in pages. */
module Areas {
  import opened Options
  import opened PageImages

  // The end of what a task can use.
  const TASK_PAGES: nat := 0x7_ffff_ffff

  datatype Kind =
    | AnonPrivate
    | FilePrivate
    | Shared  // or not an ordinary area at all

  datatype Vma = Vma(start: nat, end: nat, kind: Kind, vdso: bool, growsDown: bool) {
    predicate Private() {
      !kind.Shared?
    }

    predicate Holds(va: nat) {
      start <= va < end
    }

    // What a page of the area reads as if it was never written: zeros, or what the file has there.
    function Fresh(files: nat -> Page, va: nat): Page {
      if kind.FilePrivate? then files(va) else ZeroPage()
    }
  }

  // The areas whose pages are dumped with the task.
  predicate Dumped(v: Vma) {
    v.Private() && v.end <= TASK_PAGES
  }

  // The areas of a task are listed in order.
  ghost predicate VmasSorted(vmas: seq<Vma>) {
    && (forall i :: 0 <= i < |vmas| ==> vmas[i].start <= vmas[i].end)
    && (forall i, j :: 0 <= i < j < |vmas| ==> vmas[i].end <= vmas[j].start)
  }

  // An address space: the pages that are mapped.
  type Memory = nat -> Option<Page>

  function WithPage(m: Memory, a: nat, page: Page): Memory {
    (x: nat) => if x == a then Some(page) else m(x)
  }

  // A page of zeros, as it is.
  lemma ZeroPageIs(i: nat)
    requires i < 4096
    ensures |ZeroPage().bytes| == 4096 && ZeroPage().bytes[i] == 0
    ensures TASK_PAGES * 4096 == 0x8000_0000_0000 - 4096
  {
  }
}
