/** The status label and colour mappings and the offered status options.
    The three task pages each define the same two switches; they are defined
    once here. Both take any string and are total. */
module StatusDisplay {
  import opened Firebase

  /** The label shown for each status. */
  function Label(st: Status): string {
    match st
    case NotStarted => "Not Started"
    case Done50 => "50% Done"
    case Done70 => "70% Done"
    case Completed => "Completed"
    case Pending => "Pending"
  }

  /** `getStatusText`: the label of a stored status value, and the string
      itself for anything else. */
  function StatusText(s: string): (r: string)
    ensures ParseStatus(s).Some? ==> r == Label(ParseStatus(s).value)
    ensures ParseStatus(s).None? ==> r == s
  {
    if s == "not_started" then "Not Started"
    else if s == "50_done" then "50% Done"
    else if s == "70_done" then "70% Done"
    else if s == "completed" then "Completed"
    else if s == "pending" then "Pending"
    else s
  }

  const DefaultColor: string := "bg-slate-100 text-slate-800"

  /** The badge classes of each status. */
  function ColorClass(st: Status): string {
    match st
    case NotStarted => DefaultColor
    case Done50 => "bg-yellow-100 text-yellow-800"
    case Done70 => "bg-blue-100 text-blue-800"
    case Completed => "bg-green-100 text-green-800"
    case Pending => "bg-red-100 text-red-800"
  }

  /** `getStatusColor`: the classes of a stored status value, and the slate
      default for anything else. */
  function StatusColor(s: string): (r: string)
    ensures ParseStatus(s).Some? ==> r == ColorClass(ParseStatus(s).value)
    ensures ParseStatus(s).None? ==> r == DefaultColor
  {
    if s == "not_started" then "bg-slate-100 text-slate-800"
    else if s == "50_done" then "bg-yellow-100 text-yellow-800"
    else if s == "70_done" then "bg-blue-100 text-blue-800"
    else if s == "completed" then "bg-green-100 text-green-800"
    else if s == "pending" then "bg-red-100 text-red-800"
    else "bg-slate-100 text-slate-800"
  }

  /** Each status has a colour of its own; only not_started's coincides
      with the default given to unknown strings. */
  lemma ColorsDistinguishStatuses(a: Status, b: Status)
    requires a != b
    ensures ColorClass(a) != ColorClass(b)
    ensures ColorClass(a) == DefaultColor <==> a == NotStarted
  {
  }

  datatype StatusOption = StatusOption(value: string, caption: string)

  /** `statusOptions`: one entry per status, in declaration order. */
  function StatusOptions(): (r: seq<StatusOption>)
    ensures |r| == 5
  {
    [ StatusOption("not_started", "Not Started"),
      StatusOption("50_done", "50% Done"),
      StatusOption("70_done", "70% Done"),
      StatusOption("completed", "Completed"),
      StatusOption("pending", "Pending") ]
  }

  /** Every status is offered, at the position StatusIndex gives it. */
  lemma OptionsCoverStatuses(st: Status)
    ensures StatusIndex(st) < |StatusOptions()| && StatusOptions()[StatusIndex(st)].value == StatusValue(st)
  {
  }

  /** The option at position i offers the i-th status, captioned with the
      text getStatusText shows for it. */
  lemma OptionAt(i: int)
    requires 0 <= i < |StatusOptions()|
    ensures StatusOptions()[i].value == StatusValue(StatusAt(i))
    ensures ParseStatus(StatusOptions()[i].value) == Some(StatusAt(i))
    ensures StatusOptions()[i].caption == StatusText(StatusOptions()[i].value)
  {
  }

  /** No value is offered twice. */
  lemma OptionsDistinct(i: int, j: int)
    requires 0 <= i < j < |StatusOptions()|
    ensures StatusOptions()[i].value != StatusOptions()[j].value
  {
    OptionAt(i);
    OptionAt(j);
    Firebase.ParseStatusValue(StatusAt(i));
    assert StatusIndex(StatusAt(i)) == i && StatusIndex(StatusAt(j)) == j;
  }

  /** The text shown for a stored status value is that status's label. */
  lemma TextOfValue(st: Status)
    ensures ParseStatus(StatusValue(st)) == Some(st)
    ensures StatusText(StatusValue(st)) == Label(st)
  {
    Firebase.ParseStatusValue(st);
  }

  /** The statuses in the order the options list them. */
  function StatusAt(i: int): Status
    requires 0 <= i < 5
  {
    if i == 0 then NotStarted
    else if i == 1 then Done50
    else if i == 2 then Done70
    else if i == 3 then Completed
    else Pending
  }

  /** Position of a status in the options list. */
  function StatusIndex(st: Status): nat {
    match st
    case NotStarted => 0
    case Done50 => 1
    case Done70 => 2
    case Completed => 3
    case Pending => 4
  }
}
