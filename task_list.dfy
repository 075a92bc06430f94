/**
 * The pure helpers of src/components/TaskList.js: the chip colour for a
 * priority and the due-date formatter's guard.
 */
module TaskList {
  import opened Wrappers

  /** `getPriorityColor`: "alta", "media" and "baja" get their own colour and
      every other value the default one, so the mapping is total. */
  function PriorityColor(priority: string): (color: string)
    ensures color in {"error", "warning", "success", "default"}
    ensures color == "error" <==> priority == "alta"
    ensures color == "warning" <==> priority == "media"
    ensures color == "success" <==> priority == "baja"
  {
    match priority
    case "alta" => "error"
    case "media" => "warning"
    case "baja" => "success"
    case _ => "default"
  }

  /** `formatDate`: an empty or absent date gives "". Otherwise the date library
      is asked (`format` stands for `format(new Date(s), "PPP", { locale: es })`,
      with None for a thrown error) and the input is returned unchanged when it
      fails. */
  function FormatDate(dateString: Option<string>, format: string -> Option<string>): (r: string)
    ensures dateString.None? || dateString.value == "" ==> r == ""
    ensures dateString.Some? && dateString.value != "" && format(dateString.value).None? ==>
      r == dateString.value
    ensures dateString.Some? && dateString.value != "" && format(dateString.value).Some? ==>
      r == format(dateString.value).value
  {
    match dateString
    case None => ""
    case Some(s) =>
      if s == "" then ""
      else match format(s)
        case None => s
        case Some(formatted) => formatted
  }
}
