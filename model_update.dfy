/**
 * Model freshness: on mount the page compares when each cached model was
 * saved with when the server says it was last updated, raises an update
 * alert when the cache is older, and `updateModel` and the alert's close
 * button change the flags that drive that alert.
 */
module ModelUpdate {

  import opened Optional

  /**
   * The test at src/pages/Classify.js:95 (and :128 for the detector): the
   * cached copy is kept when the server reported no timestamp or when the
   * copy was saved no earlier than the server's timestamp. Times are
   * milliseconds since the epoch.
   */
  predicate UpdateAvailable(dateSaved: int, lastUpdated: Option<int>)
    ensures UpdateAvailable(dateSaved, lastUpdated) <==>
              lastUpdated.Some? && dateSaved < lastUpdated.value
  {
    !(lastUpdated.None? || dateSaved >= lastUpdated.value)
  }

  /** How the downloads and saves that `updateModel` awaits end. */
  datatype DownloadOutcome =
    | Downloaded        // all four awaits resolve
    | ClassifierFailed  // loading or saving the classifier rejects
    | DetectorFailed    // loading or saving the detector rejects

  /**
   * The update-related fields of the page's component state
   * (src/pages/Classify.js:71-78), for the classifier and for the detector.
   */
  class UpdateFlags {
    var modelUpdateAvailable: bool
    var showModelUpdateAlert: bool
    var showModelUpdateSuccess: bool
    var isDownloadingModel: bool
    var yoloModelUpdateAvailable: bool
    var showYoloModelUpdateAlert: bool
    var showYoloModelUpdateSuccess: bool
    var isDownloadingYoloModel: bool

    /** An alert is only ever asked for when an update is known to be available. */
    ghost predicate Valid()
      reads this
    {
      && (showModelUpdateAlert ==> modelUpdateAvailable)
      && (showYoloModelUpdateAlert ==> yoloModelUpdateAvailable)
    }

    /** The update alert the page renders (src/pages/Classify.js:567-571). */
    predicate AlertShown()
      reads this
      ensures AlertShown() ==> modelUpdateAvailable
      // in a valid state the render guard's first conjunct is redundant
      ensures Valid() ==> (AlertShown() <==> showModelUpdateAlert)
    {
      modelUpdateAvailable && showModelUpdateAlert
    }

    /** The alert's Update button, hidden while the download runs (src/pages/Classify.js:576). */
    predicate UpdateButtonShown()
      reads this
      ensures UpdateButtonShown() ==> AlertShown()
    {
      AlertShown() && !isDownloadingModel
    }

    /** The initial state: no update known, nothing shown. */
    constructor ()
      ensures Valid()
      ensures !modelUpdateAvailable && !showModelUpdateAlert && !showModelUpdateSuccess && !isDownloadingModel
      ensures !yoloModelUpdateAvailable && !showYoloModelUpdateAlert && !showYoloModelUpdateSuccess
      ensures !isDownloadingYoloModel
    {
      modelUpdateAvailable, showModelUpdateAlert := false, false;
      showModelUpdateSuccess, isDownloadingModel := false, false;
      yoloModelUpdateAvailable, showYoloModelUpdateAlert := false, false;
      showYoloModelUpdateSuccess, isDownloadingYoloModel := false, false;
    }

    /**
     * The classifier's freshness check on mount. `dateSaved` is None when the
     * cached model or its save record could not be read; both failures are
     * caught and leave the flags alone.
     */
    method CheckClassifier(dateSaved: Option<int>, lastUpdated: Option<int>)
      requires Valid()
      modifies this
      ensures Valid()
      ensures var stale := dateSaved.Some? && UpdateAvailable(dateSaved.value, lastUpdated);
              && modelUpdateAvailable == (old(modelUpdateAvailable) || stale)
              && showModelUpdateAlert == (old(showModelUpdateAlert) || stale)
      ensures showModelUpdateSuccess == old(showModelUpdateSuccess)
      ensures isDownloadingModel == old(isDownloadingModel)
      ensures yoloModelUpdateAvailable == old(yoloModelUpdateAvailable)
      ensures showYoloModelUpdateAlert == old(showYoloModelUpdateAlert)
      ensures showYoloModelUpdateSuccess == old(showYoloModelUpdateSuccess)
      ensures isDownloadingYoloModel == old(isDownloadingYoloModel)
    {
      if dateSaved.Some? && UpdateAvailable(dateSaved.value, lastUpdated) {
        modelUpdateAvailable, showModelUpdateAlert := true, true;
      }
    }

    /** The detector's freshness check on mount, the same test on its own flags. */
    method CheckDetector(dateSaved: Option<int>, lastUpdated: Option<int>)
      requires Valid()
      modifies this
      ensures Valid()
      ensures var stale := dateSaved.Some? && UpdateAvailable(dateSaved.value, lastUpdated);
              && yoloModelUpdateAvailable == (old(yoloModelUpdateAvailable) || stale)
              && showYoloModelUpdateAlert == (old(showYoloModelUpdateAlert) || stale)
      ensures showYoloModelUpdateSuccess == old(showYoloModelUpdateSuccess)
      ensures isDownloadingYoloModel == old(isDownloadingYoloModel)
      ensures modelUpdateAvailable == old(modelUpdateAvailable)
      ensures showModelUpdateAlert == old(showModelUpdateAlert)
      ensures showModelUpdateSuccess == old(showModelUpdateSuccess)
      ensures isDownloadingModel == old(isDownloadingModel)
      // the page renders no alert for the detector, so its staleness is never shown
      ensures AlertShown() == old(AlertShown())
    {
      if dateSaved.Some? && UpdateAvailable(dateSaved.value, lastUpdated) {
        yoloModelUpdateAvailable, showYoloModelUpdateAlert := true, true;
      }
    }

    /**
     * `updateModel`: the classifier's downloading flag goes up, the classifier
     * is loaded and saved, the detector's downloading flag goes up, the
     * detector is loaded and saved, and one state update then clears every
     * availability, alert and downloading flag and raises both success flags.
     * When an await rejects, the method stops there: the flags raised so far
     * stay raised and the final state update never happens.
     */
    method UpdateModel(outcome: DownloadOutcome)
      requires Valid()
      modifies this
      ensures Valid()
      ensures outcome == Downloaded ==>
                && !modelUpdateAvailable && !showModelUpdateAlert && showModelUpdateSuccess
                && !isDownloadingModel
                && !yoloModelUpdateAvailable && !showYoloModelUpdateAlert && showYoloModelUpdateSuccess
                && !isDownloadingYoloModel
                && !AlertShown()
      ensures outcome != Downloaded ==>
                && isDownloadingModel
                && isDownloadingYoloModel == (outcome == DetectorFailed || old(isDownloadingYoloModel))
                && modelUpdateAvailable == old(modelUpdateAvailable)
                && showModelUpdateAlert == old(showModelUpdateAlert)
                && showModelUpdateSuccess == old(showModelUpdateSuccess)
                && yoloModelUpdateAvailable == old(yoloModelUpdateAvailable)
                && showYoloModelUpdateAlert == old(showYoloModelUpdateAlert)
                && showYoloModelUpdateSuccess == old(showYoloModelUpdateSuccess)
                // the alert stays up, showing the download spinner instead of the button
                && AlertShown() == old(AlertShown())
                && !UpdateButtonShown()
    {
      isDownloadingModel := true;
      if outcome == ClassifierFailed {
        return;
      }
      isDownloadingYoloModel := true;
      if outcome == DetectorFailed {
        return;
      }
      isDownloadingModel, modelUpdateAvailable := false, false;
      showModelUpdateAlert, showModelUpdateSuccess := false, true;
      isDownloadingYoloModel, yoloModelUpdateAvailable := false, false;
      showYoloModelUpdateAlert, showYoloModelUpdateSuccess := false, true;
    }

    /** Closing the update alert (src/pages/Classify.js:572) hides it and changes nothing else. */
    method DismissUpdateAlert()
      requires Valid()
      modifies this
      ensures Valid()
      ensures !showModelUpdateAlert && !AlertShown()
      ensures modelUpdateAvailable == old(modelUpdateAvailable)
      ensures showModelUpdateSuccess == old(showModelUpdateSuccess)
      ensures isDownloadingModel == old(isDownloadingModel)
      ensures yoloModelUpdateAvailable == old(yoloModelUpdateAvailable)
      ensures showYoloModelUpdateAlert == old(showYoloModelUpdateAlert)
      ensures showYoloModelUpdateSuccess == old(showYoloModelUpdateSuccess)
      ensures isDownloadingYoloModel == old(isDownloadingYoloModel)
    {
      showModelUpdateAlert := false;
    }

    /** Closing the success alert (src/pages/Classify.js:597) hides it and changes nothing else. */
    method DismissUpdateSuccess()
      requires Valid()
      modifies this
      ensures Valid()
      ensures !showModelUpdateSuccess
      ensures modelUpdateAvailable == old(modelUpdateAvailable)
      ensures showModelUpdateAlert == old(showModelUpdateAlert)
      ensures isDownloadingModel == old(isDownloadingModel)
      ensures yoloModelUpdateAvailable == old(yoloModelUpdateAvailable)
      ensures showYoloModelUpdateAlert == old(showYoloModelUpdateAlert)
      ensures showYoloModelUpdateSuccess == old(showYoloModelUpdateSuccess)
      ensures isDownloadingYoloModel == old(isDownloadingYoloModel)
    {
      showModelUpdateSuccess := false;
    }
  }

  /**
   * On mount, starting from the initial state: the alert is shown exactly when
   * the classifier's cached copy is older than the server's, whatever the
   * detector's check finds.
   */
  method Mount(savedModel: Option<int>, modelUpdated: Option<int>,
               savedYolo: Option<int>, yoloUpdated: Option<int>)
    returns (alertShown: bool)
    ensures alertShown <==>
              savedModel.Some? && modelUpdated.Some? && savedModel.value < modelUpdated.value
  {
    var flags := new UpdateFlags();
    flags.CheckClassifier(savedModel, modelUpdated);
    flags.CheckDetector(savedYolo, yoloUpdated);
    alertShown := flags.AlertShown();
  }

  /** What the user can do with the update alert once the page has mounted. */
  datatype AlertAction = ClickUpdate(outcome: DownloadOutcome) | CloseAlert

  /**
   * Mounting from the initial state, then one user action on the alert.
   * A successful update hides the alert and reports success; a failed one
   * leaves the alert up on its spinner, with no Update button to retry;
   * closing the alert hides it but leaves the update available.
   */
  method MountThenAct(savedModel: Option<int>, modelUpdated: Option<int>,
                      savedYolo: Option<int>, yoloUpdated: Option<int>, action: AlertAction)
    returns (alertShown: bool, buttonShown: bool, updateAvailable: bool, succeeded: bool)
    ensures var stale := savedModel.Some? && UpdateAvailable(savedModel.value, modelUpdated);
            && (action == ClickUpdate(Downloaded) ==>
                  !alertShown && !buttonShown && !updateAvailable && succeeded)
            && (action.ClickUpdate? && action.outcome != Downloaded ==>
                  alertShown == stale && !buttonShown && updateAvailable == stale && !succeeded)
            && (action == CloseAlert ==>
                  !alertShown && !buttonShown && updateAvailable == stale && !succeeded)
  {
    var flags := new UpdateFlags();
    flags.CheckClassifier(savedModel, modelUpdated);
    flags.CheckDetector(savedYolo, yoloUpdated);
    match action {
      case ClickUpdate(outcome) => flags.UpdateModel(outcome);
      case CloseAlert => flags.DismissUpdateAlert();
    }
    alertShown, buttonShown := flags.AlertShown(), flags.UpdateButtonShown();
    updateAvailable, succeeded := flags.modelUpdateAvailable, flags.showModelUpdateSuccess;
  }

}
