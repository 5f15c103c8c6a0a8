/** The closed-set check every input validator performs. */
module Validation {
  import opened Wrappers
  import opened Text

  /** `VALID.contains(&value)`, case-sensitive, with the message
      "Invalid <what> '<value>'. Must be one of: <valid values joined by ', '>". */
  function OneOf(value: string, valid: seq<string>, what: string): (r: Result<(), string>)
    ensures r.Ok? <==> value in valid
    ensures r.Err? ==> StartsWith(r.error, "Invalid " + what + " '" + value + "'")
    ensures r.Err? ==> Contains(r.error, value)
    ensures r.Err? ==> forall i :: 0 <= i < |valid| ==> Contains(r.error, valid[i])
  {
    if value in valid then Ok(())
    else
      var head := "Invalid " + what + " '";
      var list := Join(valid, ", ");
      var message := head + value + "'. Must be one of: " + list;
      ContainsMiddle(head, value, "'. Must be one of: " + list);
      assert message == head + value + ("'. Must be one of: " + list);
      assert StartsWith(message, head + value + "'") by {
        assert message[..|head + value + "'"|] == head + value + "'";
      }
      assert forall i :: 0 <= i < |valid| ==> Contains(message, valid[i]) by {
        forall i | 0 <= i < |valid| ensures Contains(message, valid[i]) {
          JoinContains(valid, ", ", i);
          ContainsMiddle(head + value + "'. Must be one of: ", list, "");
          assert message == head + value + "'. Must be one of: " + list + "";
          ContainsTrans(message, list, valid[i]);
        }
      }
      Err(message)
  }
}
