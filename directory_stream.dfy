/**
 * The directory stream of the FTP file system. Opening a stream takes a snapshot of the
 * directory's entry names; the stream hands them out, filtered, through a single iterator.
 * `iterator()` fails with an illegal-state error once the stream is closed or once an iterator
 * was returned. The iterator announces an element with `hasNext` and delivers it with `next`;
 * closing the stream ends the iteration, but an element already announced is still delivered.
 * A filter that fails with an I/O error makes the iteration fail with a directory-iterator
 * error, which wraps that I/O error.
 */
module DirectoryStreams {
  import opened Results

  /** What the filter says about an entry: accept it, skip it, or throw an I/O error. */
  datatype FilterVerdict = Accept | Reject | Fail

  type Filter = string -> FilterVerdict

  /** The illegal-state errors of `iterator()`. */
  datatype StreamError = StreamClosed | IteratorAlreadyReturned

  /**
   * The errors of the iterator: a failing filter, or `next` with nothing left. A
   * `DirectoryIteratorError(entry)` stands for the directory-iterator error that wraps the I/O
   * error the filter threw on `entry`; the entry stands in for that I/O error, since Java's
   * error itself does not name it.
   */
  datatype IterationError = DirectoryIteratorError(entry: string) | NoSuchElement

  /** Where the search for the next accepted entry ends. */
  datatype Step = Found(index: nat) | FilterFailed(index: nat) | Exhausted

  /** The iterator's state: nothing looked up yet, an element announced, or finished. */
  datatype IterState = Unspecified | Active | Ended

  /**
   * The first entry at or after `from` that the filter does not skip: it either accepts it or
   * fails on it. Every entry before it is skipped.
   */
  function Seek(entries: seq<string>, filter: Filter, from: nat): (r: Step)
    requires from <= |entries|
    ensures r.Found? ==> from <= r.index < |entries| && filter(entries[r.index]) == Accept
    ensures r.FilterFailed? ==> from <= r.index < |entries| && filter(entries[r.index]) == Fail
    ensures !r.Exhausted? ==> forall j :: from <= j < r.index ==> filter(entries[j]) == Reject
    ensures r.Exhausted? ==> forall j :: from <= j < |entries| ==> filter(entries[j]) == Reject
    decreases |entries| - from
  {
    if from == |entries| then Exhausted
    else
      match filter(entries[from])
      case Accept => Found(from)
      case Fail => FilterFailed(from)
      case Reject => Seek(entries, filter, from + 1)
  }

  /** The position after a search: just past the entry it stopped at, or the end. */
  function PositionAfter(step: Step, size: nat): nat {
    match step
    case Found(i) => i + 1
    case FilterFailed(i) => i + 1
    case Exhausted => size
  }

  /** Names delivered before a result: they are kept on success and lost on failure. */
  function Prepend(names: seq<string>, r: Result<seq<string>, IterationError>): Result<seq<string>, IterationError> {
    match r
    case Success(rest) => Success(names + rest)
    case Failure(e) => Failure(e)
  }

  /**
   * What a complete iteration over the entries from `from` yields: the accepted names in
   * snapshot order, or the error for the first entry the filter fails on.
   */
  function Listing(entries: seq<string>, filter: Filter, from: nat): (r: Result<seq<string>, IterationError>)
    requires from <= |entries|
    ensures r.Success? ==> |r.value| <= |entries| - from
    ensures r.Failure? ==> r.error.DirectoryIteratorError? && filter(r.error.entry) == Fail
    decreases |entries| - from
  {
    if from == |entries| then Success([])
    else
      var e := entries[from];
      match filter(e)
      case Fail => Failure(DirectoryIteratorError(e))
      case Reject => Listing(entries, filter, from + 1)
      case Accept => Prepend([e], Listing(entries, filter, from + 1))
  }

  lemma PrependPrepend(a: seq<string>, b: seq<string>, r: Result<seq<string>, IterationError>)
    ensures Prepend(a, Prepend(b, r)) == Prepend(a + b, r)
  {
    if r.Success? {
      assert a + (b + r.value) == (a + b) + r.value;
    }
  }

  /** One search step, as the listing sees it. */
  lemma {:induction false} SeekListing(entries: seq<string>, filter: Filter, from: nat)
    requires from <= |entries|
    ensures match Seek(entries, filter, from)
      case Found(i) => Listing(entries, filter, from) == Prepend([entries[i]], Listing(entries, filter, i + 1))
      case FilterFailed(i) => Listing(entries, filter, from) == Failure(DirectoryIteratorError(entries[i]))
      case Exhausted => Listing(entries, filter, from) == Success([])
    decreases |entries| - from
  {
    if from < |entries| && filter(entries[from]) == Reject {
      SeekListing(entries, filter, from + 1);
    }
  }

  /** The iteration fails exactly when the filter fails on some entry. */
  lemma {:induction false} ListingSucceeds(entries: seq<string>, filter: Filter, from: nat)
    requires from <= |entries|
    ensures Listing(entries, filter, from).Success? <==> forall j :: from <= j < |entries| ==> filter(entries[j]) != Fail
    decreases |entries| - from
  {
    if from < |entries| {
      ListingSucceeds(entries, filter, from + 1);
    }
  }

  /** The error names the first entry the filter fails on. */
  lemma {:induction false} ListingFailsAtFirstFailure(entries: seq<string>, filter: Filter, from: nat, i: nat)
    requires from <= i < |entries| && filter(entries[i]) == Fail
    requires forall j :: from <= j < i ==> filter(entries[j]) != Fail
    ensures Listing(entries, filter, from) == Failure(DirectoryIteratorError(entries[i]))
    decreases |entries| - from
  {
    if from < i {
      ListingFailsAtFirstFailure(entries, filter, from + 1, i);
    }
  }

  /**
   * A successful iteration yields every accepted name as often as it occurs among the entries,
   * and no other name.
   */
  lemma {:induction false} ListingCounts(entries: seq<string>, filter: Filter, from: nat)
    requires from <= |entries|
    requires Listing(entries, filter, from).Success?
    ensures forall x ::
      multiset(Listing(entries, filter, from).value)[x] ==
      (if filter(x) == Accept then multiset(entries[from..])[x] else 0)
    decreases |entries| - from
  {
    if from < |entries| {
      ListingCounts(entries, filter, from + 1);
      assert entries[from..] == [entries[from]] + entries[from + 1..];
    }
  }

  /** A name is yielded exactly when it is an entry the filter accepts. */
  lemma ListingMembers(entries: seq<string>, filter: Filter, x: string)
    requires Listing(entries, filter, 0).Success?
    ensures x in Listing(entries, filter, 0).value <==> x in entries && filter(x) == Accept
  {
    ListingCounts(entries, filter, 0);
    assert entries[0..] == entries;
    assert x in Listing(entries, filter, 0).value <==> multiset(Listing(entries, filter, 0).value)[x] > 0;
    assert x in entries <==> multiset(entries)[x] > 0;
  }

  /** With a filter that accepts everything, the iteration yields the whole snapshot. */
  lemma {:induction false} AcceptAllListsEverything(entries: seq<string>, filter: Filter, from: nat)
    requires from <= |entries|
    requires forall x :: filter(x) == Accept
    ensures Listing(entries, filter, from) == Success(entries[from..])
    decreases |entries| - from
  {
    if from < |entries| {
      AcceptAllListsEverything(entries, filter, from + 1);
      assert entries[from..] == [entries[from]] + entries[from + 1..];
    }
  }

  /** The stream over a directory snapshot. */
  class DirectoryStream {
    const entries: seq<string>
    const filter: Filter
    var open: bool
    var iteratorReturned: bool
    /** The cursor into the snapshot: the entries before it have been looked at. */
    var position: nat

    ghost predicate Valid()
      reads this
    {
      position <= |entries| && (!iteratorReturned ==> position == 0)
    }

    constructor(snapshot: seq<string>, filter: Filter)
      ensures entries == snapshot && this.filter == filter
      ensures open && !iteratorReturned && position == 0
      ensures Valid()
    {
      entries := snapshot;
      this.filter := filter;
      open := true;
      iteratorReturned := false;
      position := 0;
    }

    /** `iterator()`: fails once closed, then once an iterator was returned. */
    method Iterator() returns (r: Result<DirectoryIterator, StreamError>)
      requires Valid()
      modifies this`iteratorReturned
      ensures Valid()
      ensures !open ==> r == Failure(StreamClosed) && iteratorReturned == old(iteratorReturned)
      ensures open && old(iteratorReturned) ==> r == Failure(IteratorAlreadyReturned) && iteratorReturned
      ensures open && !old(iteratorReturned) ==>
        r.Success? && fresh(r.value) && r.value.stream == this && r.value.state == Unspecified &&
        iteratorReturned && r.value.Valid()
    {
      if !open {
        return Failure(StreamClosed);
      }
      if iteratorReturned {
        return Failure(IteratorAlreadyReturned);
      }
      iteratorReturned := true;
      var it := new DirectoryIterator(this);
      return Success(it);
    }

    /** `close()`: ends the iteration; closing again changes nothing. */
    method Close()
      requires Valid()
      modifies this`open
      ensures Valid() && !open
    {
      open := false;
    }

    /** Looks at the entries from the cursor until the filter accepts or fails on one. */
    method GetNext() returns (step: Step)
      requires Valid() && iteratorReturned
      modifies this`position
      ensures Valid()
      ensures step == Seek(entries, filter, old(position))
      ensures position == PositionAfter(step, |entries|)
    {
      while position < |entries|
        invariant old(position) <= position <= |entries|
        invariant Seek(entries, filter, old(position)) == Seek(entries, filter, position)
        decreases |entries| - position
      {
        var e := entries[position];
        position := position + 1;
        match filter(e)
        case Accept =>
          return Found(position - 1);
        case Fail =>
          return FilterFailed(position - 1);
        case Reject =>
      }
      return Exhausted;
    }
  }

  /** The single iterator of a stream. */
  class DirectoryIterator {
    const stream: DirectoryStream
    var state: IterState
    /** The announced element, while the state is Active. */
    var pending: string

    ghost predicate Valid()
      reads this, stream
    {
      stream.Valid() && stream.iteratorReturned &&
      (state == Active ==>
        1 <= stream.position && pending == stream.entries[stream.position - 1] &&
        stream.filter(pending) == Accept) &&
      (state == Ended && stream.open ==> stream.position == |stream.entries|)
    }

    constructor(s: DirectoryStream)
      requires s.Valid() && s.iteratorReturned
      ensures stream == s && state == Unspecified
      ensures Valid()
    {
      stream := s;
      state := Unspecified;
      pending := "";
    }

    /**
     * What the iteration will still deliver: the announced name, then, while the stream is open
     * and the iteration has not ended, the listing from the cursor on. Once the stream is closed
     * only the announced name is left.
     */
    ghost function Rest(): Result<seq<string>, IterationError>
      requires Valid()
      reads this, stream
    {
      var tail := if state == Ended || !stream.open then Success([])
        else Listing(stream.entries, stream.filter, stream.position);
      if state == Active then Prepend([pending], tail) else tail
    }

    /** Decreases with every delivered name; the measure of an iteration loop. */
    ghost function Progress(): nat
      requires Valid()
      reads this, stream
    {
      2 * (|stream.entries| - stream.position) + (if state == Active then 1 else 0)
    }

    /**
     * `hasNext()`: true while a name is announced. With nothing announced it looks up the next
     * accepted entry, unless the stream is closed, in which case the iteration ends. It never
     * changes what is left to deliver; a failing filter is reported as the error that was left.
     */
    method HasNext() returns (r: Result<bool, IterationError>)
      requires Valid()
      modifies this, stream`position
      ensures Valid()
      ensures r.Success? ==> Rest() == old(Rest()) && (r.value <==> state == Active) && (!r.value ==> state == Ended)
      ensures r.Failure? ==> r.error.DirectoryIteratorError? && old(Rest()) == Failure(r.error)
      ensures old(state) == Active ==> r == Success(true) && state == Active && pending == old(pending)
      ensures Progress() <= old(Progress())
    {
      if state == Unspecified {
        if !stream.open {
          state := Ended;
        } else {
          SeekListing(stream.entries, stream.filter, stream.position);
          var step := stream.GetNext();
          match step
          case Found(i) =>
            pending := stream.entries[i];
            state := Active;
          case Exhausted =>
            state := Ended;
          case FilterFailed(i) =>
            return Failure(DirectoryIteratorError(stream.entries[i]));
        }
      }
      return Success(state == Active);
    }

    /**
     * `next()`: delivers the announced name, announcing one first if needed; with nothing left
     * it fails with NoSuchElement.
     */
    method Next() returns (r: Result<string, IterationError>)
      requires Valid()
      modifies this, stream`position
      ensures Valid()
      ensures r.Success? ==> old(Rest()) == Prepend([r.value], Rest()) && state == Unspecified
      ensures r.Success? ==> Progress() < old(Progress())
      ensures r.Failure? ==> old(Rest()) == if r.error == NoSuchElement then Success([]) else Failure(r.error)
      ensures old(state) == Active ==> r == Success(old(pending))
    {
      var more := HasNext();
      if more.Failure? {
        return Failure(more.error);
      }
      if !more.value {
        return Failure(NoSuchElement);
      }
      r := Success(pending);
      state := Unspecified;
    }
  }

  /** The remote directory, with the names of its entries. */
  class Directory {
    var children: seq<string>

    constructor(children: seq<string>)
      ensures this.children == children
    {
      this.children := children;
    }

    /** Deleting the directory, or each of its children, leaves no entries. */
    method DeleteAll()
      modifies this
      ensures children == []
    {
      children := [];
    }

    /** `newDirectoryStream(dir, filter)`: an open stream over a snapshot of the entries. */
    method NewDirectoryStream(filter: Filter) returns (s: DirectoryStream)
      ensures fresh(s) && s.entries == children && s.filter == filter
      ensures s.open && !s.iteratorReturned && s.position == 0 && s.Valid()
    {
      s := new DirectoryStream(children, filter);
    }
  }

  lemma PrependNothing(r: Result<seq<string>, IterationError>)
    ensures Prepend([], r) == r
  {
    if r.Success? {
      assert [] + r.value == r.value;
    }
  }

  /**
   * One round of the loop `hasNext`/`next` after `hasNext` said true: `next` delivers the name
   * announced, appended to those taken so far, and `hasNext` is asked again.
   */
  method TakeOne(it: DirectoryIterator, ghost expected: Result<seq<string>, IterationError>, names: seq<string>)
    returns (taken: seq<string>, more: Result<bool, IterationError>)
    requires it.Valid() && it.stream.open && it.state == Active
    requires Prepend(names, it.Rest()) == expected
    modifies it, it.stream`position
    ensures it.Valid() && it.stream.open
    ensures |taken| == |names| + 1 && taken[..|names|] == names
    ensures more.Success? ==> Prepend(taken, it.Rest()) == expected
    ensures more.Success? ==> (more.value <==> it.state == Active) && (!more.value ==> it.state == Ended)
    ensures more.Failure? ==> expected == Failure(more.error)
    ensures it.Progress() < old(it.Progress())
  {
    var x := it.Next();
    PrependPrepend(names, [x.value], it.Rest());
    taken := names + [x.value];
    assert taken[..|names|] == names;
    more := it.HasNext();
  }

  /**
   * The loop `hasNext`/`next` until `hasNext` is false, while the stream stays open: it
   * delivers what was left.
   */
  method Drain(it: DirectoryIterator) returns (r: Result<seq<string>, IterationError>)
    requires it.Valid() && it.stream.open
    modifies it, it.stream`position
    ensures r == old(it.Rest())
  {
    ghost var expected := it.Rest();
    var names: seq<string> := [];
    PrependNothing(expected);
    var more := it.HasNext();
    while more == Success(true)
      invariant it.Valid() && it.stream.open
      invariant more.Success? ==> Prepend(names, it.Rest()) == expected
      invariant more.Success? ==> (more.value <==> it.state == Active) && (!more.value ==> it.state == Ended)
      invariant more.Failure? ==> expected == Failure(more.error)
      decreases it.Progress()
    {
      names, more := TakeOne(it, expected, names);
    }
    match more
    case Success(_) =>
      assert names + [] == names;
      r := Success(names);
    case Failure(e) =>
      r := Failure(e);
  }

  /**
   * Iterating over a fresh stream yields exactly the listing of the snapshot: with a filter
   * that accepts everything, every entry; with a filter, the entries it accepts; with a
   * failing filter, the directory-iterator error.
   */
  method ListAll(snapshot: seq<string>, filter: Filter) returns (r: Result<seq<string>, IterationError>)
    ensures r == Listing(snapshot, filter, 0)
  {
    var stream := new DirectoryStream(snapshot, filter);
    var taken := stream.Iterator();
    r := Drain(taken.value);
  }

  /**
   * Deleting the directory before the iterator is taken and before every `next` does not change
   * what the iteration yields: it works on the snapshot taken when the stream was opened.
   */
  method ListWhileDeleting(dir: Directory, filter: Filter) returns (r: Result<seq<string>, IterationError>)
    modifies dir
    ensures r == Listing(old(dir.children), filter, 0)
    ensures dir.children == []
  {
    var stream := dir.NewDirectoryStream(filter);
    dir.DeleteAll();
    var taken := stream.Iterator();
    var it := taken.value;
    ghost var expected := it.Rest();
    var names: seq<string> := [];
    PrependNothing(expected);
    var more := it.HasNext();
    while more == Success(true)
      invariant it.Valid() && it.stream == stream && stream.open && fresh(stream) && fresh(it)
      invariant dir.children == []
      invariant more.Success? ==> Prepend(names, it.Rest()) == expected
      invariant more.Success? ==> (more.value <==> it.state == Active) && (!more.value ==> it.state == Ended)
      invariant more.Failure? ==> expected == Failure(more.error)
      decreases it.Progress()
    {
      dir.DeleteAll();
      names, more := TakeOne(it, expected, names);
    }
    match more
    case Success(_) =>
      assert names + [] == names;
      r := Success(names);
    case Failure(e) =>
      r := Failure(e);
  }

  /**
   * Closes the stream while `it` holds a name announced by `hasNext`: `next` still delivers that
   * name, appended to those taken so far, and `hasNext` then says there is none. What was taken
   * is then a prefix of what the iteration would have yielded.
   */
  method CloseAndTakeLast(it: DirectoryIterator, ghost expected: Result<seq<string>, IterationError>, names: seq<string>)
    returns (taken: seq<string>, more: Result<bool, IterationError>)
    requires it.Valid() && it.state == Active && it.stream.open
    requires Prepend(names, it.Rest()) == expected
    modifies it, it.stream
    ensures it.Valid() && !it.stream.open && it.state == Ended && more == Success(false)
    ensures |taken| == |names| + 1
    ensures expected.Success? ==> |taken| <= |expected.value| && expected.value[..|taken|] == taken
    ensures it.Progress() < old(it.Progress())
  {
    ghost var tail := Listing(it.stream.entries, it.stream.filter, it.stream.position);
    assert it.Rest() == Prepend([it.pending], tail);
    it.stream.Close();
    var r := it.Next();
    PrependPrepend(names, [r.value], tail);
    taken := names + [r.value];
    assert expected == Prepend(taken, tail);
    if expected.Success? {
      assert expected.value == taken + tail.value;
      assert expected.value[..|taken|] == taken;
    }
    assert it.Rest() == Success([]);
    more := it.HasNext();
  }

  /**
   * Closing the stream when `hasNext` has announced the k-th name (k >= 1): that name is still
   * delivered, then `hasNext` is false, so exactly the first k names are yielded. With k = 0 the
   * stream is never closed.
   */
  method CloseWhileIterating(snapshot: seq<string>, filter: Filter, k: nat) returns (r: Result<seq<string>, IterationError>)
    ensures k == 0 ==> r == Listing(snapshot, filter, 0)
    ensures Listing(snapshot, filter, 0).Success? ==>
      var all := Listing(snapshot, filter, 0).value;
      r == Success(if 1 <= k <= |all| then all[..k] else all)
  {
    ghost var expected := Listing(snapshot, filter, 0);
    var stream := new DirectoryStream(snapshot, filter);
    var taken := stream.Iterator();
    var it := taken.value;
    var names: seq<string> := [];
    var index := 0;
    PrependNothing(expected);
    var more := it.HasNext();
    while more == Success(true)
      invariant it.Valid() && it.stream == stream && fresh(stream) && fresh(it)
      invariant stream.entries == snapshot && stream.filter == filter
      invariant |names| == index
      invariant more.Success? ==> (more.value <==> it.state == Active) && (!more.value ==> it.state == Ended)
      invariant stream.open ==> k == 0 || index < k
      invariant stream.open && more.Success? ==> Prepend(names, it.Rest()) == expected
      invariant more.Failure? ==> stream.open && expected == Failure(more.error)
      invariant !stream.open ==>
        more == Success(false) && 1 <= k == index &&
        (expected.Success? ==> k <= |expected.value| && names == expected.value[..k])
      decreases it.Progress()
    {
      index := index + 1;
      if index == k {
        names, more := CloseAndTakeLast(it, expected, names);
      } else {
        names, more := TakeOne(it, expected, names);
      }
    }
    match more
    case Success(_) =>
      assert names + [] == names;
      r := Success(names);
    case Failure(e) =>
      r := Failure(e);
  }
}
