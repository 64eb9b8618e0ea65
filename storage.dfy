/**
 The browser's local key/value store as the two pages use it: a single key,
 `latestAssessmentScore`, written by the questionnaire and read once by the
 dashboard. The stored text is modelled as the integer it spells.
 */
module Storage {
  import opened Wrappers

  class LocalStorage {
    var latestAssessmentScore: Option<int>

    constructor ()
      ensures latestAssessmentScore == None
    {
      latestAssessmentScore := None;
    }

    /** `localStorage.getItem('latestAssessmentScore')`: the stored value, or none. */
    function GetItem(): Option<int>
      reads this
    {
      latestAssessmentScore
    }

    /** `localStorage.setItem(...)`: overwrites whatever was stored. */
    method SetItem(score: int)
      modifies this
      ensures latestAssessmentScore == Some(score)
    {
      latestAssessmentScore := Some(score);
    }

    /** `localStorage.removeItem(...)`: the key is gone afterwards. */
    method RemoveItem()
      modifies this
      ensures latestAssessmentScore == None
    {
      latestAssessmentScore := None;
    }
  }
}
