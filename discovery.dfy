/** Choosing the report to process: the candidate file with the latest
    modification time (`encontrar_relatorio_recente`). The directory listing
    and the modification times are given, not read from a file system. */
module Discovery {
  import opened Wrappers

  /** A file matching 'Relatório*.xlsx' and its modification time. */
  datatype Candidate = Candidate(path: string, mtime: real)

  /** The one error the selection raises: no candidate file. */
  datatype Error = NotFound

  /** The index `max(candidates, key=mtime)` picks. Python's `max` replaces
      its current best only by a strictly greater key, so of several
      candidates with the latest time the first one wins. */
  function NewestIndex(cs: seq<Candidate>): (i: nat)
    requires |cs| > 0
    ensures i < |cs|
    ensures forall j :: 0 <= j < |cs| ==> cs[j].mtime <= cs[i].mtime
    ensures forall j :: 0 <= j < i ==> cs[j].mtime < cs[i].mtime
    decreases |cs|
  {
    if |cs| == 1 then 0
    else
      var i := NewestIndex(cs[..|cs| - 1]);
      if cs[|cs| - 1].mtime > cs[i].mtime then |cs| - 1 else i
  }

  /** The path of the newest candidate, or NotFound when there is none. */
  function FindNewest(cs: seq<Candidate>): (r: Result<string, Error>)
    ensures r.Failure? <==> |cs| == 0
    ensures r.Failure? ==> r.error == NotFound
    ensures r.Success? ==>
      (exists i :: 0 <= i < |cs| && cs[i].path == r.value &&
         (forall j :: 0 <= j < |cs| ==> cs[j].mtime <= cs[i].mtime) &&
         (forall j :: 0 <= j < i ==> cs[j].mtime < cs[i].mtime))
  {
    if |cs| == 0 then Failure(NotFound) else Success(cs[NewestIndex(cs)].path)
  }

  /** The latest time and the first-wins tie-break determine the choice:
      any index with both properties is the one NewestIndex picks. */
  lemma NewestIsFirstLatest(cs: seq<Candidate>, k: nat)
    requires k < |cs|
    requires forall j :: 0 <= j < |cs| ==> cs[j].mtime <= cs[k].mtime
    requires forall j :: 0 <= j < k ==> cs[j].mtime < cs[k].mtime
    ensures NewestIndex(cs) == k
  {
  }
}
