/** NotificationContext: the list of toasts on screen. Adding is de-duplicated by
    message; removing filters by id. The id (`Date.now()` in the source) is an
    input, and nothing makes ids unique. */
module Notifications {
  datatype Kind = Success | Error | Info | Warning

  datatype Notification = Notification(id: int, message: string, kind: Kind)

  /** Some entry already shows this message (`prev.some(n => n.message === message)`). */
  predicate Shows(list: seq<Notification>, message: string) {
    exists i :: 0 <= i < |list| && list[i].message == message
  }

  /** No two entries show the same message. */
  predicate DistinctMessages(list: seq<Notification>) {
    forall i, j :: 0 <= i < j < |list| ==> list[i].message != list[j].message
  }

  /** `addNotification`: a message already shown leaves the list as it is, whatever
      the new kind; otherwise one entry is appended at the end. */
  function Add(list: seq<Notification>, message: string, kind: Kind, now: int): (r: seq<Notification>)
    ensures Shows(list, message) ==> r == list
    ensures !Shows(list, message) ==> |r| == |list| + 1 && r[..|list|] == list && r[|list|] == Notification(now, message, kind)
    ensures Shows(r, message)
    ensures forall m :: Shows(r, m) <==> Shows(list, m) || m == message
    ensures DistinctMessages(list) ==> DistinctMessages(r)
  {
    if Shows(list, message) then list
    else
      var r := list + [Notification(now, message, kind)];
      assert r[|list|].message == message;
      assert forall m :: Shows(r, m) ==> Shows(list, m) || m == message by {
        forall m | Shows(r, m) ensures Shows(list, m) || m == message {
          var i :| 0 <= i < |r| && r[i].message == m;
          if i < |list| { assert list[i].message == m; }
        }
      }
      assert forall m :: Shows(list, m) ==> Shows(r, m) by {
        forall m | Shows(list, m) ensures Shows(r, m) {
          var i :| 0 <= i < |list| && list[i].message == m;
          assert r[i] == list[i];
        }
      }
      r
  }

  /** Adding the same message twice is adding it once. */
  lemma AddIdempotent(list: seq<Notification>, message: string, kind: Kind, kind2: Kind, now: int, later: int)
    ensures Add(Add(list, message, kind, now), message, kind2, later) == Add(list, message, kind, now)
  {
  }

  /** From an empty list, any sequence of additions keeps messages distinct. */
  lemma {:induction false} AddsKeepDistinct(adds: seq<(string, Kind, int)>)
    ensures DistinctMessages(AddAll([], adds))
    decreases |adds|
  {
    if |adds| > 0 {
      AddsKeepDistinct(adds[..|adds| - 1]);
    }
  }

  /** The list after a sequence of `addNotification` calls, oldest first. */
  function AddAll(list: seq<Notification>, adds: seq<(string, Kind, int)>): seq<Notification>
    decreases |adds|
  {
    if |adds| == 0 then list
    else
      var last := adds[|adds| - 1];
      Add(AddAll(list, adds[..|adds| - 1]), last.0, last.1, last.2)
  }

  /** `removeNotification`: drops the entries with the id. */
  function Remove(list: seq<Notification>, id: int): (r: seq<Notification>)
    ensures |r| <= |list|
    ensures forall i :: 0 <= i < |r| ==> r[i].id != id
    ensures forall n :: n in r <==> n in list && n.id != id
  {
    if |list| == 0 then []
    else (if list[0].id != id then [list[0]] else []) + Remove(list[1..], id)
  }

  /** Removal keeps messages distinct. */
  lemma {:induction false} RemoveKeepsDistinct(list: seq<Notification>, id: int)
    requires DistinctMessages(list)
    ensures DistinctMessages(Remove(list, id))
    decreases |list|
  {
    if |list| > 0 {
      RemoveKeepsDistinct(list[1..], id);
      var rest := Remove(list[1..], id);
      assert forall j :: 0 <= j < |rest| ==> rest[j] in list[1..];
      assert forall j :: 0 <= j < |rest| ==> rest[j].message != list[0].message;
    }
  }

  /** Removing from a concatenation removes from each part: the survivors stay in
      their original relative order. */
  lemma {:induction false} RemoveDistributes(a: seq<Notification>, b: seq<Notification>, id: int)
    ensures Remove(a + b, id) == Remove(a, id) + Remove(b, id)
    decreases |a|
  {
    if |a| == 0 {
      assert a + b == b;
    } else {
      var head := if a[0].id != id then [a[0]] else [];
      assert (a + b)[0] == a[0] && (a + b)[1..] == a[1..] + b;
      assert Remove(a + b, id) == head + Remove(a[1..] + b, id);
      RemoveDistributes(a[1..], b, id);
      assert Remove(a, id) == head + Remove(a[1..], id);
      AppendAssoc(head, Remove(a[1..], id), Remove(b, id));
    }
  }

  lemma AppendAssoc<T>(x: seq<T>, u: seq<T>, v: seq<T>)
    ensures x + (u + v) == (x + u) + v
  {
  }

  /** An id no entry carries removes nothing. */
  lemma {:induction false} RemoveAbsent(list: seq<Notification>, id: int)
    requires forall i :: 0 <= i < |list| ==> list[i].id != id
    ensures Remove(list, id) == list
    decreases |list|
  {
    if |list| > 0 {
      RemoveAbsent(list[1..], id);
      assert [list[0]] + list[1..] == list;
    }
  }
}
