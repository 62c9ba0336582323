/** The plugin's web help: topic ids under the plugin's prefix map to pages
    of its documentation site. */
module AspireHelpProvider {
  import opened Common

  const HelpIdPrefix: string := "me.rafaelldi.aspire."
  const HelpDocs: string := "https://rafaelldi.github.io/aspire-plugin"
  const MainPage: string := "starter-topic.html"
  const RunConfigurationPage: string := "run-configuration.html"

  /** The page url for a topic id: none without the prefix; the run
      configuration page for "run-config"; the main page for "main" and
      for any other topic under the prefix. */
  function GetHelpPageUrl(helpTopicId: string): (r: Option<string>)
    ensures r.None? <==> !(HelpIdPrefix <= helpTopicId)
    ensures r.Some? ==> HelpDocs + "/" <= r.value
    ensures r.Some? ==>
      r.value == HelpDocs + "/" + MainPage || r.value == HelpDocs + "/" + RunConfigurationPage
  {
    if !(HelpIdPrefix <= helpTopicId) then None
    else
      var topic := helpTopicId[|HelpIdPrefix|..];
      if topic == "main" then Some(HelpDocs + "/" + MainPage)
      else if topic == "run-config" then Some(HelpDocs + "/" + RunConfigurationPage)
      else Some(HelpDocs + "/" + MainPage)
  }

  /** A topic under the prefix picks its page by the rest of its id: the
      run configuration page for "run-config" and the main page for every
      other rest, "main" included. */
  lemma TopicPages(topic: string)
    ensures GetHelpPageUrl(HelpIdPrefix + topic) ==
      Some(HelpDocs + "/" + (if topic == "run-config" then RunConfigurationPage else MainPage))
  {
    assert HelpIdPrefix <= HelpIdPrefix + topic;
    assert (HelpIdPrefix + topic)[|HelpIdPrefix|..] == topic;
  }
}
