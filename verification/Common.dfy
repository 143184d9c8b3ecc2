/** Value types and sequence/string facts shared by every model in this project. */
module Common {

  datatype Option<+T> = None | Some(value: T)

  datatype Result<+T, +E> = Ok(value: T) | Err(error: E)

  // ---- nested sequences ----------------------------------------------------

  function Flatten<T>(parts: seq<seq<T>>): (all: seq<T>)
  {
    if parts == [] then [] else parts[0] + Flatten(parts[1..])
  }

  lemma FlattenCons<T>(part: seq<T>, rest: seq<seq<T>>)
    ensures Flatten([part] + rest) == part + Flatten(rest)
  {
    assert ([part] + rest)[1..] == rest;
  }

  lemma {:induction false} FlattenAppend<T>(a: seq<seq<T>>, b: seq<seq<T>>)
    ensures Flatten(a + b) == Flatten(a) + Flatten(b)
  {
    if a == [] {
      assert a + b == b;
    } else {
      var part, tail := a[0], a[1..];
      FlattenAppend(tail, b);
      FlattenCons(part, tail + b);
      assert a + b == [part] + (tail + b);
      Joined(part, Flatten(tail), Flatten(b));
    }
  }

  lemma Joined<T>(a: seq<T>, b: seq<T>, c: seq<T>)
    ensures a + (b + c) == a + b + c
  {
  }

  lemma FlattenSingle<T>(part: seq<T>)
    ensures Flatten([part]) == part
  {
    assert [part][1..] == [];
  }

  // ---- keeping and dropping by mask ---------------------------------------

  /** The elements of `s` whose flag in `drop` is false, in order. */
  function KeepBy<T>(s: seq<T>, drop: seq<bool>): (kept: seq<T>)
    requires |s| == |drop|
    ensures |kept| <= |s|
  {
    if s == [] then []
    else if drop[0] then KeepBy(s[1..], drop[1..])
    else [s[0]] + KeepBy(s[1..], drop[1..])
  }

  /** The elements of `s` whose flag in `drop` is true, in order. */
  function DropBy<T>(s: seq<T>, drop: seq<bool>): (dropped: seq<T>)
    requires |s| == |drop|
    ensures |dropped| <= |s|
  {
    if s == [] then []
    else if drop[0] then [s[0]] + DropBy(s[1..], drop[1..])
    else DropBy(s[1..], drop[1..])
  }

  lemma MaskSplit<T>(a: seq<T>, b: seq<T>, da: seq<bool>, db: seq<bool>)
    requires |a| == |da| && |b| == |db|
    ensures KeepBy(a + b, da + db) == KeepBy(a, da) + KeepBy(b, db)
    ensures DropBy(a + b, da + db) == DropBy(a, da) + DropBy(b, db)
  {
    KeepSplit(a, b, da, db);
    DropSplit(a, b, da, db);
  }

  lemma MaskCons<T>(x: T, s: seq<T>, flag: bool, drop: seq<bool>)
    requires |s| == |drop|
    ensures KeepBy([x] + s, [flag] + drop) == (if flag then [] else [x]) + KeepBy(s, drop)
    ensures DropBy([x] + s, [flag] + drop) == (if flag then [x] else []) + DropBy(s, drop)
  {
    assert ([x] + s)[1..] == s && ([flag] + drop)[1..] == drop;
  }

  lemma {:induction false} KeepSplit<T>(a: seq<T>, b: seq<T>, da: seq<bool>, db: seq<bool>)
    requires |a| == |da| && |b| == |db|
    ensures KeepBy(a + b, da + db) == KeepBy(a, da) + KeepBy(b, db)
  {
    if a == [] {
      assert a + b == b && da + db == db;
    } else {
      var tail, flags := a[1..], da[1..];
      KeepSplit(tail, b, flags, db);
      MaskCons(a[0], tail + b, da[0], flags + db);
      assert a + b == [a[0]] + (tail + b) && da + db == [da[0]] + (flags + db);
      Joined(if da[0] then [] else [a[0]], KeepBy(tail, flags), KeepBy(b, db));
    }
  }

  lemma {:induction false} DropSplit<T>(a: seq<T>, b: seq<T>, da: seq<bool>, db: seq<bool>)
    requires |a| == |da| && |b| == |db|
    ensures DropBy(a + b, da + db) == DropBy(a, da) + DropBy(b, db)
  {
    if a == [] {
      assert a + b == b && da + db == db;
    } else {
      var tail, flags := a[1..], da[1..];
      DropSplit(tail, b, flags, db);
      MaskCons(a[0], tail + b, da[0], flags + db);
      assert a + b == [a[0]] + (tail + b) && da + db == [da[0]] + (flags + db);
      Joined(if da[0] then [a[0]] else [], DropBy(tail, flags), DropBy(b, db));
    }
  }

  lemma {:induction false} MaskNone<T>(s: seq<T>, drop: seq<bool>)
    requires |s| == |drop| && true !in drop
    ensures KeepBy(s, drop) == s && DropBy(s, drop) == []
  {
    if s != [] {
      assert drop[0] in drop;
      assert forall b :: b in drop[1..] ==> b in drop;
      MaskNone(s[1..], drop[1..]);
    }
  }

  // ---- strings -------------------------------------------------------------

  predicate EndsWith(s: string, suffix: string)
  {
    |suffix| <= |s| && s[|s| - |suffix|..] == suffix
  }

  function RemoveSuffix(s: string, suffix: string): (r: string)
    ensures EndsWith(s, suffix) ==> s == r + suffix
    ensures !EndsWith(s, suffix) ==> r == s
  {
    if EndsWith(s, suffix) then s[..|s| - |suffix|] else s
  }

  lemma RemoveAppendedSuffix(s: string, suffix: string)
    ensures EndsWith(s + suffix, suffix)
    ensures RemoveSuffix(s + suffix, suffix) == s
  {
    assert (s + suffix)[|s|..] == suffix;
    assert (s + suffix)[..|s|] == s;
  }
}
