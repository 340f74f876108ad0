/**
  `setUiDisabled` of main.js:424: the chat controls are switched on and off
  together while a request is in flight, except that the microphone button
  stays usable during a recording so that the recording can be stopped.
*/
module UiControls {
  /** The `disabled` flags of the five chat controls. */
  class Controls {
    var messageInput: bool
    var sendTextButton: bool
    var suggestTopicButton: bool
    var summarizeButton: bool
    var micButton: bool

    constructor()
      ensures !messageInput && !sendTextButton && !suggestTopicButton && !summarizeButton && !micButton
    {
      messageInput, sendTextButton, suggestTopicButton, summarizeButton, micButton := false, false, false, false, false;
    }

    method SetUiDisabled(isDisabled: bool, recording: bool)
      modifies this
      ensures messageInput == isDisabled && sendTextButton == isDisabled
      ensures suggestTopicButton == isDisabled && summarizeButton == isDisabled
      ensures micButton <==> isDisabled && !recording
    {
      messageInput := isDisabled;
      sendTextButton := isDisabled;
      suggestTopicButton := isDisabled;
      summarizeButton := isDisabled;
      micButton := isDisabled && !recording;
    }
  }
}
