/** The toast notifications, app/components/Toast.tsx: `emitToast` sends a message and a
    type; the container keeps the newest `max` toasts, newest first, and removes each one
    by its id when its timer fires. The id, made from the clock and a random suffix, is a
    parameter, and so is the moment a timer fires: a timer is the `OnExpired` update. */
module Toast {
  import opened Strings

  const DefaultMax: nat := 4
  const DefaultType: string := "info"

  datatype ToastItem = ToastItem(id: string, message: string, kind: string)

  /** The detail an event carries; a missing field is "". */
  datatype Detail = Detail(message: string, kind: string)

  /** `emitToast(message, type)`: the type defaults to "info" when it is not passed. */
  function Emit(message: string, kind: Option<string>): (r: Detail)
    ensures r.message == message
    ensures kind.None? ==> r.kind == DefaultType
    ensures kind.Some? ==> r.kind == kind.value
  {
    Detail(message, if kind.Some? then kind.value else DefaultType)
  }

  /** The toast an event makes, when its message is not empty: an empty type becomes
      "info". */
  function Make(d: Detail, id: string): (r: Option<ToastItem>)
    ensures r.None? <==> d.message == ""
    ensures r.Some? ==> r.value.id == id && r.value.message == d.message && r.value.kind != ""
    ensures r.Some? && d.kind != "" ==> r.value.kind == d.kind
  {
    if d.message == "" then None
    else Some(ToastItem(id, d.message, if d.kind != "" then d.kind else DefaultType))
  }

  /** The `scribe-toast` handler: a new toast goes first and the list is cut to `max`;
      an event without a message (or without a detail) changes nothing. */
  function OnEvent(list: seq<ToastItem>, d: Option<Detail>, id: string, max: nat): (r: seq<ToastItem>)
    ensures r == list || |r| == Min(max, |list| + 1)
    ensures |list| <= max ==> |r| <= max
    ensures d.None? || d.value.message == "" ==> r == list
  {
    var t := if d.Some? then Make(d.value, id) else None;
    if t.None? then list else Take([t.value] + list, max)
  }

  /** The timer: drop the toast with that id, keeping the others in order. */
  function OnExpired(list: seq<ToastItem>, id: string): (r: seq<ToastItem>)
    ensures |r| <= |list|
    ensures forall i :: 0 <= i < |r| ==> r[i].id != id && r[i] in list
    ensures forall i :: 0 <= i < |list| && list[i].id != id ==> list[i] in r
  {
    Filter(list, (t: ToastItem) => t.id != id)
  }

  /** The class of a toast's box. */
  function ClassName(t: ToastItem): (r: string)
    ensures t.kind != "" ==> r == "toast " + t.kind
    ensures t.kind == "" ==> r == "toast info"
  {
    "toast " + (if t.kind != "" then t.kind else DefaultType)
  }

  // ---------------------------------------------------------------- properties

  predicate DistinctIds(list: seq<ToastItem>) {
    forall i, j :: 0 <= i < j < |list| ==> list[i].id != list[j].id
  }

  predicate HasId(list: seq<ToastItem>, id: string) {
    exists i :: 0 <= i < |list| && list[i].id == id
  }

  /** A message shows as the first toast, above the older ones, which keep their order;
      at most `max` are kept. */
  lemma NewestFirst(list: seq<ToastItem>, message: string, kind: string, id: string, max: nat)
    requires message != ""
    ensures var r := OnEvent(list, Some(Detail(message, kind)), id, max);
      && |r| == Min(max, |list| + 1)
      && (max >= 1 ==> r[0] == ToastItem(id, message, if kind != "" then kind else DefaultType))
      && (max >= 1 ==> r[1..] == Take(list, max - 1))
  {
    var t := ToastItem(id, message, if kind != "" then kind else DefaultType);
    var r := OnEvent(list, Some(Detail(message, kind)), id, max);
    assert r == Take([t] + list, max);
    if max >= 1 {
      if max >= |list| + 1 {
        assert r[1..] == list;
      } else {
        assert r[1..] == ([t] + list)[1..max] == list[..max - 1];
      }
    }
  }

  /** Events without a message, or without a detail, leave the list alone. */
  lemma EmptyMessageIgnored(list: seq<ToastItem>, kind: string, id: string, max: nat)
    ensures OnEvent(list, Some(Detail("", kind)), id, max) == list
    ensures OnEvent(list, None, id, max) == list
  {
  }

  /** The container never holds more than `max` toasts, and with fresh ids no two share
      an id. */
  lemma EventKeepsInvariant(list: seq<ToastItem>, d: Option<Detail>, id: string, max: nat)
    requires |list| <= max && DistinctIds(list) && !HasId(list, id)
    ensures var r := OnEvent(list, d, id, max);
      |r| <= max && DistinctIds(r)
  {
    var r := OnEvent(list, d, id, max);
    if r != list {
      var t := Make(d.value, id).value;
      var all := [t] + list;
      assert DistinctIds(all) by {
        forall i, j | 0 <= i < j < |all| ensures all[i].id != all[j].id {
          if i == 0 {
            assert all[j] == list[j - 1];
          } else {
            assert all[i] == list[i - 1] && all[j] == list[j - 1];
          }
        }
      }
      assert r == all[..Min(max, |all|)];
    }
  }

  /** Expiring a toast removes exactly that toast: the toasts before and after it stay,
      in their order. */
  lemma OnExpiredRemovesOne(a: seq<ToastItem>, x: ToastItem, b: seq<ToastItem>, id: string)
    requires x.id == id
    requires forall u :: u in a + b ==> u.id != id
    ensures OnExpired(a + [x] + b, id) == a + b
  {
    FilterAppend(a + [x], b, (t: ToastItem) => t.id != id);
    FilterSnoc(a, x, (t: ToastItem) => t.id != id);
    assert forall i :: 0 <= i < |a| ==> a[i].id != id by {
      forall i | 0 <= i < |a| ensures a[i].id != id { assert a[i] in a + b; }
    }
    assert forall i :: 0 <= i < |b| ==> b[i].id != id by {
      forall i | 0 <= i < |b| ensures b[i].id != id { assert b[i] in a + b; }
    }
    FilterAll(a, (t: ToastItem) => t.id != id);
    FilterAll(b, (t: ToastItem) => t.id != id);
    assert Filter(a + [x], (t: ToastItem) => t.id != id) == a;
    assert OnExpired(a + [x] + b, id) == Filter(a + [x] + b, (t: ToastItem) => t.id != id);
  }

  /** A toast that expires after its own event leaves the older toasts as the event found
      them, cut to `max - 1`. */
  lemma ShowThenExpire(list: seq<ToastItem>, message: string, kind: string, id: string, max: nat)
    requires message != "" && max >= 1 && !HasId(list, id)
    ensures OnExpired(OnEvent(list, Some(Detail(message, kind)), id, max), id) == Take(list, max - 1)
  {
    var r := OnEvent(list, Some(Detail(message, kind)), id, max);
    NewestFirst(list, message, kind, id, max);
    assert r == [r[0]] + r[1..];
    FilterAppend([r[0]], r[1..], (t: ToastItem) => t.id != id);
    FilterAll(r[1..], (t: ToastItem) => t.id != id);
  }
}
